/** The session file and the functions that read it, change some fields and write it back. */
module SessionFiles {
  import opened Sequences

  datatype Json =
    | Null
    | Bool(b: bool)
    | Num(n: real)
    | Str(s: string)
    | Arr(items: seq<Json>)
    | Obj(fields: map<string, Json>)

  predicate Truthy(j: Json) {
    match j
    case Null => false
    case Bool(b) => b
    case Num(n) => n != 0.0
    case Str(s) => s != ""
    case _ => true
  }

  /** The fields of the session file: those the engine writes, and all others. */
  datatype Key =
    | Status | Mode
    | FlowVersion | FlowSource | FlowManifestVersion | FlowPackId | FlowPackName | FlowPackVersion
    | StateHistory | GateResults | LastUpdated | GovernanceMode | DegradationLog
    | TransitionStatus | TransitionTarget | TransitionStartedAt | TransitionId
    | Other(name: string)

  type Record = map<Key, Json>

  /** What a store holds at the session path; `Unreadable` is what `JSON.parse` rejects. */
  datatype Disk = Missing | Unreadable | Stored(record: Record)

  function Existing(disk: Disk): Record {
    match disk
    case Stored(record) => record
    case _ => map[]
  }

  function Lookup(r: Record, k: Key): Option<Json> {
    if k in r then Some(r[k]) else None
  }

  /** Assigning `undefined` leaves the field out of the written JSON. */
  function Assign(r: Record, k: Key, v: Option<Json>): Record {
    match v
    case None => r - {k}
    case Some(j) => r[k := j]
  }

  /** Writing one field changes that field and no other. */
  lemma AssignChangesOne()
    ensures forall r, k, v, j {:trigger Lookup(Assign(r, k, v), j)} ::
      Lookup(Assign(r, k, v), j) == if j == k then v else Lookup(r, j)
  {
  }

  /** Records with the same fields are the same. */
  lemma SameFields(r: Record, t: Record)
    requires forall k :: Lookup(r, k) == Lookup(t, k)
    ensures r == t
  {
    forall k
      ensures k in r <==> k in t
      ensures k in r ==> r[k] == t[k]
    {
      assert Lookup(r, k) == Lookup(t, k);
    }
  }

  // ----- Saving the machine's state

  /** `StateMachine.serialize()` with the flow pack added; an empty text is a missing one. */
  datatype Serialized = Serialized(
    status: string,
    mode: string,
    flowVersion: string,
    flowSource: string,
    flowManifestVersion: string,
    flowPackId: string,
    flowPackName: string,
    flowPackVersion: string,
    stateHistory: Json,
    gateResults: Json,
    lastUpdated: string,
    governanceMode: string)

  /** `given || (typeof existing[k] === 'string' ? existing[k] : undefined)`. */
  function OrExistingText(given: string, r: Record, k: Key): Option<Json> {
    if given != "" then Some(Str(given))
    else if Lookup(r, k).Some? && Lookup(r, k).value.Str? then Lookup(r, k)
    else None
  }

  /** `given || existing[k] || undefined`. */
  function OrExisting(given: string, r: Record, k: Key): Option<Json> {
    if given != "" then Some(Str(given))
    else if Lookup(r, k).Some? && Truthy(Lookup(r, k).value) then Lookup(r, k)
    else None
  }

  /** What saving `s` over `r` leaves in field `k`. */
  function SavedField(r: Record, s: Serialized, k: Key): Option<Json> {
    match k
    case Status => Some(Str(s.status))
    case Mode => Some(Str(s.mode))
    case FlowVersion => OrExistingText(s.flowVersion, r, k)
    case FlowSource => OrExistingText(s.flowSource, r, k)
    case FlowManifestVersion => OrExistingText(s.flowManifestVersion, r, k)
    case FlowPackId => OrExistingText(s.flowPackId, r, k)
    case FlowPackName => OrExistingText(s.flowPackName, r, k)
    case FlowPackVersion => OrExistingText(s.flowPackVersion, r, k)
    case StateHistory => Some(s.stateHistory)
    case GateResults => Some(s.gateResults)
    case LastUpdated => Some(Str(s.lastUpdated))
    case GovernanceMode => OrExisting(s.governanceMode, r, k)
    case DegradationLog => Some(if Lookup(r, k).Some? && Truthy(Lookup(r, k).value) then Lookup(r, k).value else Arr([]))
    case _ => Lookup(r, k)
  }

  const SAVED_KEYS: set<Key> := {
    Status, Mode, FlowVersion, FlowSource, FlowManifestVersion, FlowPackId, FlowPackName, FlowPackVersion,
    StateHistory, GateResults, LastUpdated, GovernanceMode, DegradationLog
  }

  function Saved(r: Record, s: Serialized): Record {
    map k | k in r.Keys + SAVED_KEYS && SavedField(r, s, k).Some? :: SavedField(r, s, k).value
  }

  lemma SavedLookup(r: Record, s: Serialized, k: Key)
    ensures Lookup(Saved(r, s), k) == SavedField(r, s, k)
  {
  }

  /** The place of a field in the object literal that `saveSessionState` builds. */
  function Rank(k: Key): nat {
    match k
    case Status => 0 case Mode => 1
    case FlowVersion => 2 case FlowSource => 3 case FlowManifestVersion => 4
    case FlowPackId => 5 case FlowPackName => 6 case FlowPackVersion => 7
    case StateHistory => 8 case GateResults => 9 case LastUpdated => 10
    case GovernanceMode => 11 case DegradationLog => 12
    case _ => 13
  }

  ghost predicate SavedUpTo(r: Record, s: Serialized, n: nat, merged: Record) {
    forall k :: Lookup(merged, k) == if Rank(k) < n then SavedField(r, s, k) else Lookup(r, k)
  }

  lemma NothingSaved(r: Record, s: Serialized)
    ensures SavedUpTo(r, s, 0, r)
  {
  }

  lemma SaveStep(r: Record, s: Serialized, merged: Record, k: Key)
    requires k in SAVED_KEYS && SavedUpTo(r, s, Rank(k), merged)
    ensures SavedUpTo(r, s, Rank(k) + 1, Assign(merged, k, SavedField(r, s, k)))
  {
    hide SavedField, Lookup, Assign;
    AssignChangesOne();
    forall j
      ensures Lookup(Assign(merged, k, SavedField(r, s, k)), j) ==
              if Rank(j) < Rank(k) + 1 then SavedField(r, s, j) else Lookup(r, j)
    {
      assert Rank(j) == Rank(k) ==> j == k;
    }
  }

  lemma EverythingSaved(r: Record, s: Serialized, merged: Record)
    requires SavedUpTo(r, s, 13, merged)
    ensures merged == Saved(r, s)
  {
    forall k
      ensures Lookup(merged, k) == Lookup(Saved(r, s), k)
    {
      SavedLookup(r, s, k);
    }
    SameFields(merged, Saved(r, s));
  }

  // ----- The write-ahead markers

  const IN_PROGRESS := Str("IN_PROGRESS")
  const COMPLETE := Str("COMPLETE")

  function Intended(r: Record, target: string, now: string, id: string): Record {
    var marked := Assign(r, TransitionStatus, Some(IN_PROGRESS));
    var targeted := Assign(marked, TransitionTarget, Some(Str(target)));
    var started := Assign(targeted, TransitionStartedAt, Some(Str(now)));
    Assign(started, TransitionId, OrExisting(id, r, TransitionId))
  }

  function Completed(r: Record): Record {
    var marked := Assign(r, TransitionStatus, Some(COMPLETE));
    Assign(Assign(Assign(marked, TransitionTarget, None), TransitionStartedAt, None), TransitionId, None)
  }

  predicate Marker(k: Key) {
    k.TransitionStatus? || k.TransitionTarget? || k.TransitionStartedAt? || k.TransitionId?
  }

  lemma IntendedElsewhere(r: Record, target: string, now: string, id: string, k: Key)
    requires !Marker(k)
    ensures Lookup(Intended(r, target, now, id), k) == Lookup(r, k)
  {
  }

  lemma CompletedLookup(r: Record, k: Key)
    ensures Lookup(Completed(r), k) ==
      if !Marker(k) then Lookup(r, k) else if k.TransitionStatus? then Some(COMPLETE) else None
  {
  }

  predicate InProgress(r: Record) { Lookup(r, TransitionStatus) == Some(IN_PROGRESS) }

  // ----- The degradation log

  /** The entries of the log; anything but an array holds none. */
  function Log(r: Record): seq<Json> {
    match Lookup(r, DegradationLog)
    case Some(Arr(items)) => items
    case _ => []
  }

  function Degraded(r: Record, entry: Json): Record {
    Assign(r, DegradationLog, Some(Arr(Log(r) + [entry])))
  }

  // ----- What every operation keeps

  /** Target and start time are there exactly while a transition is in progress, and the
      degradation log, if there is one, is an array. */
  ghost predicate WellFormed(r: Record) {
    && (Lookup(r, TransitionTarget).Some? <==> InProgress(r))
    && (Lookup(r, TransitionStartedAt).Some? <==> InProgress(r))
    && (Lookup(r, DegradationLog).Some? ==> Lookup(r, DegradationLog).value.Arr?)
  }

  /** The fields that the engine does not own are the same. */
  ghost predicate SameOutside(r: Record, t: Record) {
    forall name :: Lookup(r, Other(name)) == Lookup(t, Other(name))
  }

  /** `t` may be written over `r`: nothing foreign is touched and no log entry is lost. */
  ghost predicate Follows(r: Record, t: Record) {
    WellFormed(t) && SameOutside(r, t) && Log(r) <= Log(t)
  }

  lemma FollowsTransitive(r: Record, t: Record, u: Record)
    requires Follows(r, t) && Follows(t, u)
    ensures Follows(r, u)
  {
    forall name
      ensures Lookup(r, Other(name)) == Lookup(u, Other(name))
    {
      assert Lookup(r, Other(name)) == Lookup(t, Other(name)) == Lookup(u, Other(name));
    }
  }

  lemma FollowsItself(r: Record)
    requires WellFormed(r)
    ensures Follows(r, r)
  {
  }

  /** The log and the markers survive a save of the machine's state. */
  lemma SavedFollows(r: Record, s: Serialized)
    requires WellFormed(r)
    ensures Follows(r, Saved(r, s)) && Log(Saved(r, s)) == Log(r)
    ensures InProgress(Saved(r, s)) <==> InProgress(r)
    ensures Lookup(Saved(r, s), TransitionTarget) == Lookup(r, TransitionTarget)
    ensures Lookup(Saved(r, s), TransitionId) == Lookup(r, TransitionId)
  {
    hide Saved, Lookup;
    SavedLookup(r, s, TransitionStatus);
    SavedLookup(r, s, TransitionTarget);
    SavedLookup(r, s, TransitionStartedAt);
    SavedLookup(r, s, TransitionId);
    SavedLookup(r, s, DegradationLog);
    forall name
      ensures Lookup(Saved(r, s), Other(name)) == Lookup(r, Other(name))
    {
      SavedLookup(r, s, Other(name));
    }
  }

  lemma IntendedFollows(r: Record, target: string, now: string, id: string)
    requires WellFormed(r)
    ensures Follows(r, Intended(r, target, now, id)) && InProgress(Intended(r, target, now, id))
    ensures Lookup(Intended(r, target, now, id), TransitionTarget) == Some(Str(target))
    ensures id != "" ==> Lookup(Intended(r, target, now, id), TransitionId) == Some(Str(id))
    ensures Lookup(Intended(r, target, now, id), Status) == Lookup(r, Status)
  {
    AssignChangesOne();
    hide Assign, Lookup;
  }

  lemma CompletedFollows(r: Record)
    requires WellFormed(r)
    ensures Follows(r, Completed(r)) && !InProgress(Completed(r))
    ensures Lookup(Completed(r), Status) == Lookup(r, Status)
  {
    AssignChangesOne();
    hide Assign, Lookup;
  }

  lemma DegradedFollows(r: Record, entry: Json)
    requires WellFormed(r)
    ensures Follows(r, Degraded(r, entry)) && Log(Degraded(r, entry)) == Log(r) + [entry]
    ensures InProgress(Degraded(r, entry)) <==> InProgress(r)
    ensures Lookup(Degraded(r, entry), Status) == Lookup(r, Status)
    ensures Lookup(Degraded(r, entry), TransitionTarget) == Lookup(r, TransitionTarget)
  {
    AssignChangesOne();
    hide Assign, Lookup;
  }

  predicate SameFlow(s: Serialized, t: Serialized) {
    t == t.(flowVersion := s.flowVersion, flowSource := s.flowSource, flowManifestVersion := s.flowManifestVersion,
            flowPackId := s.flowPackId, flowPackName := s.flowPackName, flowPackVersion := s.flowPackVersion,
            governanceMode := s.governanceMode)
  }

  /** Of two saves for the same flow only the last one counts. */
  lemma LastSaveCounts(r: Record, s: Serialized, t: Serialized)
    requires SameFlow(s, t)
    ensures Saved(Saved(r, s), t) == Saved(r, t)
  {
    hide Lookup, Saved;
    forall k
      ensures Lookup(Saved(Saved(r, s), t), k) == Lookup(Saved(r, t), k)
    {
      SavedLookup(Saved(r, s), t, k);
      SavedLookup(r, s, k);
      SavedLookup(r, t, k);
    }
    SameFields(Saved(Saved(r, s), t), Saved(r, t));
  }

  /** The markers leave no trace: an intent, a save and a completion come to the save and
      the completion alone. */
  lemma MarkersLeaveNoTrace(r: Record, target: string, now: string, id: string, s: Serialized)
    ensures Completed(Saved(Intended(r, target, now, id), s)) == Completed(Saved(r, s))
  {
    hide Completed, Saved, Intended, Lookup;
    var marked := Intended(r, target, now, id);
    forall k
      ensures Lookup(Completed(Saved(marked, s)), k) == Lookup(Completed(Saved(r, s)), k)
    {
      CompletedLookup(Saved(marked, s), k);
      CompletedLookup(Saved(r, s), k);
      if !Marker(k) {
        SavedLookup(marked, s, k);
        SavedLookup(r, s, k);
        IntendedElsewhere(r, target, now, id, k);
      }
    }
    SameFields(Completed(Saved(marked, s)), Completed(Saved(r, s)));
  }

  // ----- The file

  /** The session file. `written` remembers every record it has held since it was opened:
      a crash can leave any one of them behind. */
  class SessionFile {
    var disk: Disk
    ghost var written: seq<Record>

    constructor (disk: Disk)
      ensures this.disk == disk && written == []
    {
      this.disk := disk;
      written := [];
    }

    method Write(r: Record)
      modifies this
      ensures disk == Stored(r) && written == old(written) + [r]
    {
      disk := Stored(r);
      written := written + [r];
    }

    method SaveSessionState(s: Serialized)
      modifies this
      ensures disk == Stored(Saved(Existing(old(disk)), s)) && written == old(written) + [Existing(disk)]
    {
      var existing := Existing(disk);
      hide Assign, Lookup, Saved, SavedUpTo;
      var merged := existing;
      NothingSaved(existing, s);
      SaveStep(existing, s, merged, Status);
      merged := Assign(merged, Status, Some(Str(s.status)));
      SaveStep(existing, s, merged, Mode);
      merged := Assign(merged, Mode, Some(Str(s.mode)));
      SaveStep(existing, s, merged, FlowVersion);
      merged := Assign(merged, FlowVersion, OrExistingText(s.flowVersion, existing, FlowVersion));
      SaveStep(existing, s, merged, FlowSource);
      merged := Assign(merged, FlowSource, OrExistingText(s.flowSource, existing, FlowSource));
      SaveStep(existing, s, merged, FlowManifestVersion);
      merged := Assign(merged, FlowManifestVersion,
                       OrExistingText(s.flowManifestVersion, existing, FlowManifestVersion));
      SaveStep(existing, s, merged, FlowPackId);
      merged := Assign(merged, FlowPackId, OrExistingText(s.flowPackId, existing, FlowPackId));
      SaveStep(existing, s, merged, FlowPackName);
      merged := Assign(merged, FlowPackName, OrExistingText(s.flowPackName, existing, FlowPackName));
      SaveStep(existing, s, merged, FlowPackVersion);
      merged := Assign(merged, FlowPackVersion, OrExistingText(s.flowPackVersion, existing, FlowPackVersion));
      SaveStep(existing, s, merged, StateHistory);
      merged := Assign(merged, StateHistory, Some(s.stateHistory));
      SaveStep(existing, s, merged, GateResults);
      merged := Assign(merged, GateResults, Some(s.gateResults));
      SaveStep(existing, s, merged, LastUpdated);
      merged := Assign(merged, LastUpdated, Some(Str(s.lastUpdated)));
      SaveStep(existing, s, merged, GovernanceMode);
      merged := Assign(merged, GovernanceMode, OrExisting(s.governanceMode, existing, GovernanceMode));
      var log := Lookup(existing, DegradationLog);
      SaveStep(existing, s, merged, DegradationLog);
      merged := Assign(merged, DegradationLog, if log.Some? && Truthy(log.value) then log else Some(Arr([])));
      EverythingSaved(existing, s, merged);
      Write(merged);
    }

    method SaveTransitionIntent(target: string, now: string, id: string)
      modifies this
      ensures disk == Stored(Intended(Existing(old(disk)), target, now, id)) && written == old(written) + [Existing(disk)]
    {
      var existing := Existing(disk);
      var updated := Assign(existing, TransitionStatus, Some(IN_PROGRESS));
      updated := Assign(updated, TransitionTarget, Some(Str(target)));
      updated := Assign(updated, TransitionStartedAt, Some(Str(now)));
      updated := Assign(updated, TransitionId, OrExisting(id, existing, TransitionId));
      Write(updated);
    }

    method SaveTransitionComplete()
      modifies this
      ensures disk == Stored(Completed(Existing(old(disk)))) && written == old(written) + [Existing(disk)]
    {
      var existing := Existing(disk);
      existing := Assign(existing, TransitionStatus, Some(COMPLETE));
      existing := Assign(existing, TransitionTarget, None);
      existing := Assign(existing, TransitionStartedAt, None);
      existing := Assign(existing, TransitionId, None);
      Write(existing);
    }

    method AddDegradationEntry(entry: Json)
      modifies this
      ensures disk == Stored(Degraded(Existing(old(disk)), entry)) && written == old(written) + [Existing(disk)]
    {
      var existing := Existing(disk);
      var logged := Lookup(existing, DegradationLog);
      var log := if logged.Some? && logged.value.Arr? then logged.value.items else [];
      log := log + [entry];
      existing := Assign(existing, DegradationLog, Some(Arr(log)));
      Write(existing);
    }
  }
}
