/** Whole runs of the memory store: expiry is invisible, and compacted content stays. */
module MemoryRuns {
  import opened Sequences
  import opened OrderedMaps
  import opened Utf8
  import opened Texts
  import opened SemanticMemory
  import opened Compaction

  datatype Op =
    | WriteOp(tier: Tier, key: string, content: Text, topic: string)
    | ReadOp(tier: Tier, key: string)
    | ListOp(tier: Tier)
    | EvictOp(tier: Tier)
    | SweepOp
    | ClearOp(tier: Tier)
    | CompactOp(maxAgeMs: int)

  datatype Output =
    | Nothing
    | Found(entry: Option<MemoryEntry>)
    | Listed(entries: seq<MemoryEntry>)
    | CompactedKeys(keys: seq<string>, created: nat, bytesBefore: nat, bytesAfter: nat)

  type KeyLeq = (string, string) -> bool

  function Step(s: Store, op: Op, now: int, wall: int, keyLeq: KeyLeq): Store {
    match op
    case WriteOp(tier, key, content, topic) => Write(s, tier, key, content, topic, wall)
    case ReadOp(tier, key) => AfterRead(s, tier, key, now)
    case ListOp(tier) => AfterEvict(s, tier, now)
    case EvictOp(tier) => AfterEvict(s, tier, now)
    case SweepOp => AfterSweep(s, now)
    case ClearOp(tier) => WithCol(s, tier, [])
    case CompactOp(maxAgeMs) => Compacted(s, now, wall, maxAgeMs, keyLeq).store
  }

  function Summary(p: Progress): Output {
    CompactedKeys(p.prunedRunKeys, p.projectEntriesCreated, p.bytesBefore, p.bytesAfter)
  }

  function Answer(s: Store, op: Op, now: int, wall: int, keyLeq: KeyLeq): Output {
    match op
    case ReadOp(tier, key) => Found(ReadResult(s, tier, key, now))
    case ListOp(tier) => Listed(ListResult(s, tier, now, keyLeq))
    case CompactOp(maxAgeMs) => Summary(Compacted(s, now, wall, maxAgeMs, keyLeq))
    case _ => Nothing
  }

  // ----- Stores that no later call can tell apart

  ghost predicate Same(s: Store, t: Store, now: int) {
    Valid(s) && Valid(t) &&
    forall tier, key :: Live(tier, Get(s, tier, key), now) == Live(tier, Get(t, tier, key), now)
  }

  lemma SameLater(s: Store, t: Store, now: int, later: int)
    requires Same(s, t, now) && now <= later
    ensures Same(s, t, later)
  {
    forall tier, key
      ensures Live(tier, Get(s, tier, key), later) == Live(tier, Get(t, tier, key), later)
    {
      assert Live(tier, Get(s, tier, key), now) == Live(tier, Get(t, tier, key), now);
    }
  }

  lemma SameSet(s: Store, t: Store, tier: Tier, entry: MemoryEntry, now: int)
    requires Same(s, t, now)
    ensures Same(SetEntry(s, tier, entry), SetEntry(t, tier, entry), now)
  {
    hide Live;
    SetKeepsValid(s, tier, entry);
    SetKeepsValid(t, tier, entry);
    forall t', key
      ensures Live(t', Get(SetEntry(s, tier, entry), t', key), now) == Live(t', Get(SetEntry(t, tier, entry), t', key), now)
    {
      GetAfterSet(s, tier, entry, t', key);
      GetAfterSet(t, tier, entry, t', key);
    }
  }

  lemma SameDelete(s: Store, t: Store, tier: Tier, k: string, now: int)
    requires Same(s, t, now)
    ensures Same(Delete(s, tier, k), Delete(t, tier, k), now)
  {
    hide Live;
    DeleteKeepsValid(s, tier, k);
    DeleteKeepsValid(t, tier, k);
    forall t', key
      ensures Live(t', Get(Delete(s, tier, k), t', key), now) == Live(t', Get(Delete(t, tier, k), t', key), now)
    {
      GetAfterDelete(s, tier, k, t', key);
      GetAfterDelete(t, tier, k, t', key);
    }
  }

  /** Dropping expired entries shows in no later answer. */
  lemma EvictIsSame(s: Store, tier: Tier, now: int)
    requires Valid(s)
    ensures Same(AfterEvict(s, tier, now), s, now)
  {
    EvictKeepsValid(s, tier, now);
    SweptKeyed(tier, Col(s, tier), now);
  }

  lemma DropExpiredKeyIsSame(s: Store, tier: Tier, k: string, now: int)
    requires Valid(s) && Live(tier, Get(s, tier, k), now) == None
    ensures Same(Delete(s, tier, k), s, now)
  {
    DeleteKeepsValid(s, tier, k);
    forall t', key
      ensures Live(t', Get(Delete(s, tier, k), t', key), now) == Live(t', Get(s, t', key), now)
    {
      GetAfterDelete(s, tier, k, t', key);
    }
  }

  lemma SameTransitive(s: Store, t: Store, u: Store, now: int)
    requires Same(s, t, now) && Same(t, u, now)
    ensures Same(s, u, now)
  {
    hide Live, Get;
  }

  lemma SameSymmetric(s: Store, t: Store, now: int)
    requires Same(s, t, now)
    ensures Same(t, s, now)
  {
  }

  /** What a read leaves behind: the live entry touched, or nothing. */
  lemma ReadIsSame(s: Store, tier: Tier, key: string, now: int)
    requires Valid(s)
    ensures var live := Live(tier, Get(s, tier, key), now);
            Same(AfterRead(s, tier, key, now),
                 if live.Some? then SetEntry(s, tier, Touched(live.value, now)) else s, now)
  {
    var found := Get(s, tier, key);
    if found.Some? {
      if Expired(tier, found.value, now) {
        DropExpiredKeyIsSame(s, tier, key, now);
      } else {
        SetKeepsValid(s, tier, Touched(found.value, now));
      }
    }
  }

  lemma SameRead(s: Store, t: Store, tier: Tier, key: string, now: int)
    requires Same(s, t, now)
    ensures ReadResult(s, tier, key, now) == ReadResult(t, tier, key, now)
    ensures Same(AfterRead(s, tier, key, now), AfterRead(t, tier, key, now), now)
  {
    var live := Live(tier, Get(s, tier, key), now);
    assert live == Live(tier, Get(t, tier, key), now);
    hide Live, Get, AfterRead;
    ReadIsSame(s, tier, key, now);
    ReadIsSame(t, tier, key, now);
    if live.Some? {
      var entry := Touched(live.value, now);
      SameSet(s, t, tier, entry, now);
      SameTransitive(AfterRead(s, tier, key, now), SetEntry(s, tier, entry), SetEntry(t, tier, entry), now);
      SameSymmetric(AfterRead(t, tier, key, now), SetEntry(t, tier, entry), now);
      SameTransitive(AfterRead(s, tier, key, now), SetEntry(t, tier, entry), AfterRead(t, tier, key, now), now);
    } else {
      SameTransitive(AfterRead(s, tier, key, now), s, t, now);
      SameSymmetric(AfterRead(t, tier, key, now), t, now);
      SameTransitive(AfterRead(s, tier, key, now), t, AfterRead(t, tier, key, now), now);
    }
  }

  lemma SameEvict(s: Store, t: Store, tier: Tier, now: int)
    requires Same(s, t, now)
    ensures Same(AfterEvict(s, tier, now), AfterEvict(t, tier, now), now)
  {
    EvictIsSame(s, tier, now);
    EvictIsSame(t, tier, now);
    SameTransitive(AfterEvict(s, tier, now), s, t, now);
    SameSymmetric(AfterEvict(t, tier, now), t, now);
    SameTransitive(AfterEvict(s, tier, now), t, AfterEvict(t, tier, now), now);
  }

  lemma SameList(s: Store, t: Store, tier: Tier, now: int, keyLeq: KeyLeq)
    requires Same(s, t, now) && KeyOrder(keyLeq)
    ensures ListResult(s, tier, now, keyLeq) == ListResult(t, tier, now, keyLeq)
  {
    var a, b := ListResult(s, tier, now, keyLeq), ListResult(t, tier, now, keyLeq);
    ListIsUnexpiredInKeyOrder(s, tier, now, keyLeq);
    ListIsUnexpiredInKeyOrder(t, tier, now, keyLeq);
    forall e
      ensures e in a <==> e in b
    {
      assert Live(tier, Get(s, tier, e.key), now) == Live(tier, Get(t, tier, e.key), now);
    }
    SameElements(a, b);
    ByKeyIsPreorder(keyLeq);
    forall e, f | e in a && f in a && ByKey(keyLeq)(e, f) && ByKey(keyLeq)(f, e)
      ensures e == f
    {
      assert e.key == f.key;
    }
    assert Sorted(a, ByKey(keyLeq)) && Sorted(b, ByKey(keyLeq));
    SortedUnique(a, b, ByKey(keyLeq));
  }

  lemma SameClear(s: Store, t: Store, tier: Tier, now: int)
    requires Same(s, t, now)
    ensures Same(WithCol(s, tier, []), WithCol(t, tier, []), now)
  {
    forall t', key
      ensures Live(t', Get(WithCol(s, tier, []), t', key), now) == Live(t', Get(WithCol(t, tier, []), t', key), now)
    {
      assert Live(t', Get(s, t', key), now) == Live(t', Get(t, t', key), now);
    }
  }

  // ----- Compaction cannot tell them apart either

  lemma {:induction false} SameDeleteRows(s: Store, t: Store, rows: seq<MemoryEntry>, now: int)
    requires Same(s, t, now)
    ensures Same(DeleteRows(s, rows), DeleteRows(t, rows), now)
  {
    if rows != [] {
      hide Same, Delete;
      var n := |rows| - 1;
      SameDeleteRows(s, t, rows[..n], now);
      SameDelete(DeleteRows(s, rows[..n]), DeleteRows(t, rows[..n]), RunTier, rows[n].key, now);
    }
  }

  ghost predicate SameProgress(p: Progress, q: Progress, now: int) {
    Same(p.store, q.store, now) && Summary(p) == Summary(q)
  }

  lemma SameGroup(p: Progress, q: Progress, group: Entry<string, seq<MemoryEntry>>, now: int, wall: int)
    requires SameProgress(p, q, now)
    ensures SameProgress(CompactGroup(p, group, now, wall), CompactGroup(q, group, now, wall), now)
  {
    hide Same, Blank, AfterRead, ReadResult, NextContent, DeleteRows, SetEntry, MergedContent;
    var key := CompactedKey(group.key);
    SameRead(p.store, q.store, ProjectTier, key, now);
    var next := NextContent(ReadResult(p.store, ProjectTier, key, now), MergedContent(group.value));
    SameSet(AfterRead(p.store, ProjectTier, key, now), AfterRead(q.store, ProjectTier, key, now), ProjectTier,
            MemoryEntry(key, next, wall, wall, 0, group.key), now);
    SameDeleteRows(Deposit(p.store, group, now, wall), Deposit(q.store, group, now, wall), group.value, now);
  }

  lemma {:induction false} SameGroups(s: Store, t: Store, groups: Groups, now: int, wall: int)
    requires Same(s, t, now)
    ensures SameProgress(CompactGroups(s, groups, now, wall), CompactGroups(t, groups, now, wall), now)
  {
    if groups != [] {
      hide Same, CompactGroup;
      var n := |groups| - 1;
      SameGroups(s, t, groups[..n], now, wall);
      SameGroup(CompactGroups(s, groups[..n], now, wall), CompactGroups(t, groups[..n], now, wall), groups[n], now, wall);
    }
  }

  lemma SameCompact(s: Store, t: Store, maxAgeMs: int, now: int, wall: int, keyLeq: KeyLeq)
    requires Same(s, t, now) && KeyOrder(keyLeq)
    ensures SameProgress(Compacted(s, now, wall, maxAgeMs, keyLeq), Compacted(t, now, wall, maxAgeMs, keyLeq), now)
  {
    hide Same, CompactGroups, AfterEvict, Grouped;
    SameList(s, t, RunTier, now, keyLeq);
    SameEvict(s, t, RunTier, now);
    SameGroups(AfterEvict(s, RunTier, now), AfterEvict(t, RunTier, now), Grouped(Eligible(s, now, maxAgeMs, keyLeq)), now, wall);
  }

  // ----- Runs

  lemma SameStep(s: Store, t: Store, op: Op, now: int, wall: int, keyLeq: KeyLeq)
    requires Same(s, t, now) && KeyOrder(keyLeq)
    ensures Same(Step(s, op, now, wall, keyLeq), Step(t, op, now, wall, keyLeq), now)
    ensures Answer(s, op, now, wall, keyLeq) == Answer(t, op, now, wall, keyLeq)
  {
    hide Same, AfterRead, AfterEvict, ReadResult, ListResult, SetEntry, WithCol, Compacted;
    match op {
      case WriteOp(tier, key, content, topic) =>
        SameSet(s, t, tier, MemoryEntry(key, content, wall, wall, 0, topic), now);
      case ReadOp(tier, key) => SameRead(s, t, tier, key, now);
      case ListOp(tier) =>
        SameList(s, t, tier, now, keyLeq);
        SameEvict(s, t, tier, now);
      case EvictOp(tier) => SameEvict(s, t, tier, now);
      case SweepOp =>
        SameEvict(s, t, ProjectTier, now);
        SameEvict(AfterEvict(s, ProjectTier, now), AfterEvict(t, ProjectTier, now), OrgTier, now);
      case ClearOp(tier) => SameClear(s, t, tier, now);
      case CompactOp(maxAgeMs) => SameCompact(s, t, maxAgeMs, now, wall, keyLeq);
    }
  }

  /** Calls that only tidy up. */
  predicate IsMaintenance(op: Op) { op.ListOp? || op.EvictOp? || op.SweepOp? }

  lemma MaintenanceIsSame(s: Store, op: Op, now: int, wall: int, keyLeq: KeyLeq)
    requires Valid(s) && IsMaintenance(op)
    ensures Same(Step(s, op, now, wall, keyLeq), s, now)
  {
    hide Same, AfterEvict;
    match op {
      case ListOp(tier) => EvictIsSame(s, tier, now);
      case EvictOp(tier) => EvictIsSame(s, tier, now);
      case SweepOp =>
        EvictIsSame(s, ProjectTier, now);
        EvictKeepsValid(s, ProjectTier, now);
        EvictIsSame(AfterEvict(s, ProjectTier, now), OrgTier, now);
        SameTransitive(AfterSweep(s, now), AfterEvict(s, ProjectTier, now), s, now);
    }
  }

  /** `now` is the time a call is given and `wall` the clock that it stamps what it writes with. */
  datatype Call = Call(op: Op, now: int, wall: int, inserted: bool)

  ghost predicate InOrder(calls: seq<Call>, start: int) {
    calls == [] || (start <= calls[0].now && InOrder(calls[1..], calls[0].now))
  }

  function Kept(calls: seq<Call>): seq<Call> {
    if calls == [] then [] else (if calls[0].inserted then [] else [calls[0]]) + Kept(calls[1..])
  }

  /** The answers to the calls that were not inserted. */
  function Observed(s: Store, calls: seq<Call>, keyLeq: KeyLeq): seq<Output>
    decreases calls
  {
    if calls == [] then []
    else
      var call := calls[0];
      (if call.inserted then [] else [Answer(s, call.op, call.now, call.wall, keyLeq)])
      + Observed(Step(s, call.op, call.now, call.wall, keyLeq), calls[1..], keyLeq)
  }

  lemma {:induction false} SameObservations(s: Store, t: Store, calls: seq<Call>, now: int, keyLeq: KeyLeq)
    requires Same(s, t, now) && InOrder(calls, now) && KeyOrder(keyLeq)
    requires forall call :: call in calls && call.inserted ==> IsMaintenance(call.op)
    ensures Observed(s, calls, keyLeq) == Observed(t, Kept(calls), keyLeq)
    decreases calls
  {
    if calls != [] {
      hide Step, Answer, Same, IsMaintenance;
      var call, rest := calls[0], calls[1..];
      assert call in calls;
      SameLater(s, t, now, call.now);
      if call.inserted {
        MaintainLeft(s, t, call.op, call.now, call.wall, keyLeq);
        SameObservations(Step(s, call.op, call.now, call.wall, keyLeq), t, rest, call.now, keyLeq);
        assert Kept(calls) == Kept(rest);
      } else {
        SameStep(s, t, call.op, call.now, call.wall, keyLeq);
        SameObservations(Step(s, call.op, call.now, call.wall, keyLeq), Step(t, call.op, call.now, call.wall, keyLeq), rest, call.now, keyLeq);
        assert Kept(calls)[0] == call && Kept(calls)[1..] == Kept(rest);
      }
    }
  }

  lemma MaintainLeft(s: Store, t: Store, op: Op, now: int, wall: int, keyLeq: KeyLeq)
    requires Same(s, t, now) && IsMaintenance(op)
    ensures Same(Step(s, op, now, wall, keyLeq), t, now)
  {
    MaintenanceIsSame(s, op, now, wall, keyLeq);
    SameTransitive(Step(s, op, now, wall, keyLeq), s, t, now);
  }

  /** Any number of list, evict and sweep calls, inserted anywhere in a run, change no
      answer of the other calls: lazy expiry cannot be told from eager expiry. */
  lemma EvictionIsInvisible(s: Store, calls: seq<Call>, start: int, keyLeq: KeyLeq)
    requires Valid(s) && InOrder(calls, start) && KeyOrder(keyLeq)
    requires forall call :: call in calls && call.inserted ==> IsMaintenance(call.op)
    ensures Observed(s, calls, keyLeq) == Observed(s, Kept(calls), keyLeq)
  {
    SameObservations(s, s, calls, start, keyLeq);
  }

  // ----- Compacted content stays

  predicate Disturbs(op: Op, key: string) {
    (op.WriteOp? && op.tier == ProjectTier && op.key == key) || (op.ClearOp? && op.tier == ProjectTier)
  }

  function After(s: Store, calls: seq<Call>, keyLeq: KeyLeq): Store
    decreases calls
  {
    if calls == [] then s else After(Step(s, calls[0].op, calls[0].now, calls[0].wall, keyLeq), calls[1..], keyLeq)
  }

  /** At every call the entry is unexpired, and no call overwrites or clears it. */
  ghost predicate LeftAlone(s: Store, calls: seq<Call>, key: string, keyLeq: KeyLeq)
    decreases calls
  {
    calls == [] ||
    (Live(ProjectTier, Get(s, ProjectTier, key), calls[0].now).Some? && !Disturbs(calls[0].op, key)
     && LeftAlone(Step(s, calls[0].op, calls[0].now, calls[0].wall, keyLeq), calls[1..], key, keyLeq))
  }

  lemma StepHolds(s: Store, op: Op, now: int, wall: int, g: string, part: Text, keyLeq: KeyLeq)
    requires Valid(s) && KeyOrder(keyLeq) && Solid(part) && Holds(s, g, part)
    requires Live(ProjectTier, Get(s, ProjectTier, CompactedKey(g)), now).Some? && !Disturbs(op, CompactedKey(g))
    ensures Valid(Step(s, op, now, wall, keyLeq)) && Holds(Step(s, op, now, wall, keyLeq), g, part)
  {
    var k := CompactedKey(g);
    hide Contains, Solid, Trim;
    match op {
      case WriteOp(tier, key, content, topic) =>
        var entry := MemoryEntry(key, content, wall, wall, 0, topic);
        SetKeepsValid(s, tier, entry);
        GetAfterSet(s, tier, entry, ProjectTier, k);
      case ReadOp(tier, key) => ReadHolds(s, tier, key, now, g, part);
      case ListOp(tier) => EvictHolds(s, tier, now, g, part);
      case EvictOp(tier) => EvictHolds(s, tier, now, g, part);
      case SweepOp =>
        EvictHolds(s, ProjectTier, now, g, part);
        EvictHolds(AfterEvict(s, ProjectTier, now), OrgTier, now, g, part);
      case ClearOp(tier) =>
      case CompactOp(maxAgeMs) =>
        CompactionKeeps(s, now, wall, maxAgeMs, keyLeq, g, part);
        CompactionCounts(s, now, wall, maxAgeMs, keyLeq, k);
    }
  }

  lemma EvictHolds(s: Store, tier: Tier, now: int, g: string, part: Text)
    requires Valid(s) && Holds(s, g, part)
    requires Live(ProjectTier, Get(s, ProjectTier, CompactedKey(g)), now).Some?
    ensures var after := AfterEvict(s, tier, now);
            && Valid(after) && Holds(after, g, part)
            && Live(ProjectTier, Get(after, ProjectTier, CompactedKey(g)), now).Some?
  {
    EvictKeepsValid(s, tier, now);
    SweptKeyed(tier, Col(s, tier), now);
  }

  lemma ReadHolds(s: Store, tier: Tier, key: string, now: int, g: string, part: Text)
    requires Valid(s) && Holds(s, g, part)
    requires Live(ProjectTier, Get(s, ProjectTier, CompactedKey(g)), now).Some?
    ensures Valid(AfterRead(s, tier, key, now)) && Holds(AfterRead(s, tier, key, now), g, part)
  {
    hide Contains;
    var found := Get(s, tier, key);
    if found.Some? {
      FindKeyed(Col(s, tier), key);
      SetKeepsValid(s, tier, Touched(found.value, now));
      DeleteKeepsValid(s, tier, key);
      GetAfterSet(s, tier, Touched(found.value, now), ProjectTier, CompactedKey(g));
      GetAfterDelete(s, tier, key, ProjectTier, CompactedKey(g));
    }
  }

  /** What compaction has stored under a group survives any run of later calls,
      compactions included, while the entry is unexpired and not written over or cleared. */
  lemma {:induction false} CompactedContentSurvives(s: Store, calls: seq<Call>, g: string, part: Text, keyLeq: KeyLeq)
    requires Valid(s) && KeyOrder(keyLeq) && Solid(part) && Holds(s, g, part)
    requires LeftAlone(s, calls, CompactedKey(g), keyLeq)
    ensures Holds(After(s, calls, keyLeq), g, part)
    decreases calls
  {
    if calls != [] {
      hide Step, Holds, Solid, Live;
      StepHolds(s, calls[0].op, calls[0].now, calls[0].wall, g, part, keyLeq);
      CompactedContentSurvives(Step(s, calls[0].op, calls[0].now, calls[0].wall, keyLeq), calls[1..], g, part, keyLeq);
    }
  }

  /** The two together: an old entry whose content is not blank, once compacted, is found in
      the compacted entry of its group after any run that leaves that entry alone. */
  lemma CompactedEntrySurvives(s: Store, now: int, wall: int, maxAgeMs: int, e: MemoryEntry, calls: seq<Call>, keyLeq: KeyLeq)
    requires Valid(s) && KeyOrder(keyLeq) && Get(s, RunTier, e.key) == Some(e)
    requires now - e.writtenAt >= maxAgeMs && Trim(e.content) != []
    requires LeftAlone(Step(s, CompactOp(maxAgeMs), now, wall, keyLeq), calls, CompactedKey(GroupKey(e)), keyLeq)
    ensures var end := After(Step(s, CompactOp(maxAgeMs), now, wall, keyLeq), calls, keyLeq);
            Holds(end, GroupKey(e), Trim(e.content))
  {
    hide Trim, Solid, Holds, After, LeftAlone, Compacted, Valid;
    TrimIsSolid(e.content);
    EntryIsCompacted(s, now, wall, maxAgeMs, e, keyLeq);
    CompactedContentSurvives(Step(s, CompactOp(maxAgeMs), now, wall, keyLeq), calls, GroupKey(e), Trim(e.content), keyLeq);
  }

  lemma EntryIsCompacted(s: Store, now: int, wall: int, maxAgeMs: int, e: MemoryEntry, keyLeq: KeyLeq)
    requires Valid(s) && KeyOrder(keyLeq) && Get(s, RunTier, e.key) == Some(e)
    requires now - e.writtenAt >= maxAgeMs && Trim(e.content) != []
    ensures var after := Compacted(s, now, wall, maxAgeMs, keyLeq).store;
            Valid(after) && Holds(after, GroupKey(e), Trim(e.content))
  {
    hide Trim, Holds, Compacted, Valid;
    CompactionLosesNothing(s, now, wall, maxAgeMs, keyLeq, e);
    CompactionCounts(s, now, wall, maxAgeMs, keyLeq, e.key);
  }
}
