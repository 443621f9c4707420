/** Compaction: old run entries are merged, topic by topic, into project entries. */
module Compaction {
  import opened Sequences
  import opened OrderedMaps
  import opened Utf8
  import opened Texts
  import opened SemanticMemory

  type Groups = OrderedMap<string, seq<MemoryEntry>>

  function GroupKey(e: MemoryEntry): string { if e.topic != "" then e.topic else e.key }

  function InGroup(group: string): MemoryEntry -> bool { (e: MemoryEntry) => GroupKey(e) == group }

  function CompactedKey(group: string): string { "compacted:" + group }

  function Eligible(s: Store, now: int, maxAgeMs: int, keyLeq: (string, string) -> bool): seq<MemoryEntry> {
    Filter(ListResult(s, RunTier, now, keyLeq), (e: MemoryEntry) => now - e.writtenAt >= maxAgeMs)
  }

  function Rows(groups: Groups, group: string): seq<MemoryEntry> {
    var found := Find(groups, group);
    if found.Some? then found.value else []
  }

  function Grouped(entries: seq<MemoryEntry>): Groups {
    if entries == [] then []
    else
      var groups, e := Grouped(entries[..|entries| - 1]), entries[|entries| - 1];
      Put(groups, GroupKey(e), Rows(groups, GroupKey(e)) + [e])
  }

  function TrimmedContents(rows: seq<MemoryEntry>): seq<Text> {
    Map(rows, (e: MemoryEntry) => Trim(e.content))
  }

  function MergedContent(rows: seq<MemoryEntry>): Text { MergeTexts(TrimmedContents(rows)) }

  function NextContent(existing: Option<MemoryEntry>, merged: Text): Text {
    if existing.Some? && existing.value.content != [] then MergeTexts([Trim(existing.value.content), merged]) else merged
  }

  function DeleteRows(s: Store, rows: seq<MemoryEntry>): Store {
    if rows == [] then s
    else Delete(DeleteRows(s, rows[..|rows| - 1]), RunTier, rows[|rows| - 1].key)
  }

  function ContentBytes(rows: seq<MemoryEntry>): nat {
    if rows == [] then 0 else ContentBytes(rows[..|rows| - 1]) + Bytes(rows[|rows| - 1].content)
  }

  function KeysOf(rows: seq<MemoryEntry>): seq<string> { Map(rows, (e: MemoryEntry) => e.key) }

  datatype Progress = Progress(
    store: Store,
    prunedRunKeys: seq<string>,
    compactedEntries: nat,
    projectEntriesCreated: nat,
    bytesBefore: nat,
    bytesAfter: nat)

  predicate Blank(group: Entry<string, seq<MemoryEntry>>) { MergedContent(group.value) == [] }

  /** Project tier: what the group had before, then its merged content, under one key. */
  function Deposit(s: Store, group: Entry<string, seq<MemoryEntry>>, now: int, wall: int): Store {
    var key := CompactedKey(group.key);
    Write(AfterRead(s, ProjectTier, key, now), ProjectTier, key,
          NextContent(ReadResult(s, ProjectTier, key, now), MergedContent(group.value)), group.key, wall)
  }

  function CompactGroup(p: Progress, group: Entry<string, seq<MemoryEntry>>, now: int, wall: int): Progress {
    if Blank(group) then p
    else
      var next := NextContent(ReadResult(p.store, ProjectTier, CompactedKey(group.key), now), MergedContent(group.value));
      Progress(
        DeleteRows(Deposit(p.store, group, now, wall), group.value),
        p.prunedRunKeys + KeysOf(group.value),
        p.compactedEntries + |group.value|,
        p.projectEntriesCreated + 1,
        p.bytesBefore + ContentBytes(group.value),
        p.bytesAfter + Bytes(next))
  }

  function CompactGroups(s: Store, groups: Groups, now: int, wall: int): Progress {
    if groups == [] then Progress(s, [], 0, 0, 0, 0)
    else CompactGroup(CompactGroups(s, groups[..|groups| - 1], now, wall), groups[|groups| - 1], now, wall)
  }

  /** `compact(now, maxAgeMs)`; `wall` is the clock that `write` reads. */
  function Compacted(s: Store, now: int, wall: int, maxAgeMs: int, keyLeq: (string, string) -> bool): Progress {
    CompactGroups(AfterEvict(s, RunTier, now), Grouped(Eligible(s, now, maxAgeMs, keyLeq)), now, wall)
  }

  // ----- Compaction in place

  method GroupRowsByKey(entries: seq<MemoryEntry>) returns (groups: Groups)
    ensures groups == Grouped(entries)
  {
    groups := [];
    for i := 0 to |entries|
      invariant groups == Grouped(entries[..i])
    {
      assert entries[..i + 1][..i] == entries[..i];
      groups := Put(groups, GroupKey(entries[i]), Rows(groups, GroupKey(entries[i])) + [entries[i]]);
    }
    assert entries[..|entries|] == entries;
  }

  method DropRows(mem: SemanticMemoryStore, rows: seq<MemoryEntry>) returns (keys: seq<string>, bytes: nat)
    requires Valid(mem.storage.tiers)
    modifies mem.storage
    ensures mem.storage.tiers == DeleteRows(old(mem.storage.tiers), rows) && Valid(mem.storage.tiers)
    ensures keys == KeysOf(rows) && bytes == ContentBytes(rows)
  {
    hide Valid, Delete, Bytes;
    keys, bytes := [], 0;
    for i := 0 to |rows|
      invariant mem.storage.tiers == DeleteRows(old(mem.storage.tiers), rows[..i]) && Valid(mem.storage.tiers)
      invariant keys == KeysOf(rows[..i]) && bytes == ContentBytes(rows[..i])
    {
      assert rows[..i + 1][..i] == rows[..i];
      DeleteKeepsValid(mem.storage.tiers, RunTier, rows[i].key);
      var size := ByteLength(rows[i].content);
      bytes := bytes + size;
      keys := keys + [rows[i].key];
      mem.storage.Drop(RunTier, rows[i].key);
    }
    assert rows[..|rows|] == rows;
  }

  /** Merge one group into its project entry and delete its run entries. */
  method CompactOne(mem: SemanticMemoryStore, group: Entry<string, seq<MemoryEntry>>, now: int, wall: int, ghost p: Progress)
    returns (keys: seq<string>, created: bool, before: nat, after: nat)
    requires Valid(mem.storage.tiers) && p.store == mem.storage.tiers
    modifies mem.storage
    ensures Valid(mem.storage.tiers)
    ensures CompactGroup(p, group, now, wall) ==
            Progress(mem.storage.tiers, p.prunedRunKeys + keys, p.compactedEntries + |keys|,
                     p.projectEntriesCreated + (if created then 1 else 0), p.bytesBefore + before, p.bytesAfter + after)
  {
    hide ReadResult, AfterRead, SetEntry, Valid, DeleteRows, ContentBytes, MergedContent, NextContent, CompactedKey;
    var merged := MergedContent(group.value);
    keys, created, before, after := [], merged != [], 0, 0;
    if !created {
      return;
    }
    var compactedKey := CompactedKey(group.key);
    var existing := mem.Read(ProjectTier, compactedKey, now);
    var next := NextContent(existing, merged);
    ghost var read := mem.storage.tiers;
    mem.WriteEntry(ProjectTier, compactedKey, next, group.key, wall);
    assert mem.storage.tiers == Deposit(p.store, group, now, wall);
    SetKeepsValid(read, ProjectTier, MemoryEntry(compactedKey, next, wall, wall, 0, group.key));
    keys, before := DropRows(mem, group.value);
    after := ByteLength(next);
  }

  lemma CompactNone(s: Store, groups: Groups, now: int, wall: int)
    ensures CompactGroups(s, groups[..0], now, wall) == Progress(s, [], 0, 0, 0, 0)
  {
  }

  lemma CompactNext(s: Store, groups: Groups, now: int, wall: int, i: nat)
    requires i < |groups|
    ensures CompactGroups(s, groups[..i + 1], now, wall) ==
            CompactGroup(CompactGroups(s, groups[..i], now, wall), groups[i], now, wall)
  {
    hide CompactGroup;
    assert groups[..i + 1][..i] == groups[..i];
  }

  method Compact(mem: SemanticMemoryStore, now: int, wall: int, maxAgeMs: int)
    returns (compactedEntries: nat, projectEntriesCreated: nat, bytesSaved: nat, prunedRunKeys: seq<string>)
    requires Valid(mem.storage.tiers)
    modifies mem.storage
    ensures var p := Compacted(old(mem.storage.tiers), now, wall, maxAgeMs, mem.keyLeq);
            && mem.storage.tiers == p.store
            && compactedEntries == p.compactedEntries && prunedRunKeys == p.prunedRunKeys
            && projectEntriesCreated == p.projectEntriesCreated
            && bytesSaved == if p.bytesBefore > p.bytesAfter then p.bytesBefore - p.bytesAfter else 0
  {
    hide CompactGroup, CompactGroups, Valid, Grouped, ListResult, Filter, AfterEvict;
    var runEntries := mem.List(RunTier, now);
    var eligible := Filter(runEntries, (e: MemoryEntry) => now - e.writtenAt >= maxAgeMs);
    var groups := GroupRowsByKey(eligible);
    ghost var start := mem.storage.tiers;
    CompactNone(start, groups, now, wall);
    compactedEntries, projectEntriesCreated, prunedRunKeys := 0, 0, [];
    var bytesBefore, bytesAfter := 0, 0;
    for i := 0 to |groups|
      invariant Valid(mem.storage.tiers)
      invariant CompactGroups(start, groups[..i], now, wall) ==
                Progress(mem.storage.tiers, prunedRunKeys, compactedEntries, projectEntriesCreated, bytesBefore, bytesAfter)
    {
      CompactNext(start, groups, now, wall, i);
      ghost var p := CompactGroups(start, groups[..i], now, wall);
      var keys, created, before, after := CompactOne(mem, groups[i], now, wall, p);
      prunedRunKeys := prunedRunKeys + keys;
      compactedEntries := compactedEntries + |keys|;
      projectEntriesCreated := projectEntriesCreated + if created then 1 else 0;
      bytesBefore, bytesAfter := bytesBefore + before, bytesAfter + after;
    }
    assert groups[..|groups|] == groups;
    bytesSaved := if bytesBefore > bytesAfter then bytesBefore - bytesAfter else 0;
  }

  // ----- Groups

  /** One group per group key, each holding the entries of that key in order. */
  ghost predicate GroupsOf(groups: Groups, entries: seq<MemoryEntry>) {
    && DistinctKeys(groups)
    && (forall g :: Rows(groups, g) == Filter(entries, InGroup(g)))
    && (forall i :: 0 <= i < |groups| ==> groups[i].value != [])
  }

  lemma RowsPut(groups: Groups, e: MemoryEntry, g: string)
    ensures Rows(Put(groups, GroupKey(e), Rows(groups, GroupKey(e)) + [e]), g) ==
            Rows(groups, g) + (if GroupKey(e) == g then [e] else [])
  {
    hide Put, Find;
    FindPut(groups, GroupKey(e), Rows(groups, GroupKey(e)) + [e], g);
  }

  lemma {:induction false} GroupedRows(entries: seq<MemoryEntry>, g: string)
    ensures Rows(Grouped(entries), g) == Filter(entries, InGroup(g))
    decreases entries
  {
    if entries != [] {
      hide Filter, Put, Rows;
      var n := |entries| - 1;
      GroupedRows(entries[..n], g);
      RowsPut(Grouped(entries[..n]), entries[n], g);
      FilterAppend(entries[..n], [entries[n]], InGroup(g));
      FilterOne(entries[n], InGroup(g));
      assert entries == entries[..n] + [entries[n]];
    } else {
      assert Filter(entries, InGroup(g)) == [];
    }
  }

  lemma {:induction false} GroupedKeys(entries: seq<MemoryEntry>)
    ensures DistinctKeys(Grouped(entries))
    ensures forall group :: group in Grouped(entries) ==> group.value != []
    decreases entries
  {
    if entries != [] {
      hide Put, Rows;
      var n := |entries| - 1;
      var groups, e := Grouped(entries[..n]), entries[n];
      GroupedKeys(entries[..n]);
      PutKeys(groups, GroupKey(e), Rows(groups, GroupKey(e)) + [e]);
    }
  }

  lemma GroupedGroups(entries: seq<MemoryEntry>)
    ensures GroupsOf(Grouped(entries), entries)
  {
    hide Grouped, Rows, Filter, DistinctKeys;
    GroupedKeys(entries);
    forall g
      ensures Rows(Grouped(entries), g) == Filter(entries, InGroup(g))
    {
      GroupedRows(entries, g);
    }
    var all := Grouped(entries);
    forall i | 0 <= i < |all|
      ensures all[i].value != []
    {
      assert all[i] in all;
    }
  }

  lemma GroupRows(groups: Groups, entries: seq<MemoryEntry>, i: nat)
    requires GroupsOf(groups, entries) && i < |groups|
    ensures groups[i].value == Filter(entries, InGroup(groups[i].key))
    ensures forall e :: e in groups[i].value <==> e in entries && GroupKey(e) == groups[i].key
  {
    FindIsEntry(groups, groups[i].key, groups[i].value);
    assert groups[i] in groups;
    assert Rows(groups, groups[i].key) == groups[i].value;
  }

  lemma GroupOfEntry(groups: Groups, entries: seq<MemoryEntry>, e: MemoryEntry) returns (i: nat)
    requires GroupsOf(groups, entries) && e in entries
    ensures i < |groups| && groups[i].key == GroupKey(e) && e in groups[i].value
  {
    var g := GroupKey(e);
    assert e in Rows(groups, g);
    FindIsEntry(groups, g, Rows(groups, g));
    i :| 0 <= i < |groups| && groups[i] == Entry(g, Rows(groups, g));
  }

  // ----- Run tier

  ghost predicate DistinctRowKeys(rows: seq<MemoryEntry>) {
    forall i, j :: 0 <= i < j < |rows| ==> rows[i].key != rows[j].key
  }

  lemma {:induction false} DeleteRowsRun(s: Store, rows: seq<MemoryEntry>)
    requires Valid(s) && DistinctRowKeys(rows)
    requires forall e :: e in rows ==> Get(s, RunTier, e.key).Some?
    ensures var after := DeleteRows(s, rows);
            && Valid(after) && after.project == s.project && after.org == s.org
            && |after.run| == |s.run| - |rows|
            && (forall key :: Get(after, RunTier, key) ==
                              if key in KeysOf(rows) then None else Get(s, RunTier, key))
  {
    if rows != [] {
      var n := |rows| - 1;
      DeleteRowsRun(s, rows[..n]);
      RowKeysNext(rows);
      DeleteOne(DeleteRows(s, rows[..n]), rows[n].key);
    }
  }

  lemma RowKeysNext(rows: seq<MemoryEntry>)
    requires rows != [] && DistinctRowKeys(rows)
    ensures var n := |rows| - 1;
            && rows[n] in rows
            && KeysOf(rows) == KeysOf(rows[..n]) + [rows[n].key]
            && rows[n].key !in KeysOf(rows[..n])
  {
  }

  lemma DeleteOne(s: Store, k: string)
    requires Valid(s) && Get(s, RunTier, k).Some?
    ensures var after := Delete(s, RunTier, k);
            && Valid(after) && after.project == s.project && after.org == s.org
            && |after.run| == |s.run| - 1
            && (forall key :: Get(after, RunTier, key) == if key == k then None else Get(s, RunTier, key))
  {
    DeleteKeepsValid(s, RunTier, k);
    RemoveKeys(s.run, k);
    forall key
      ensures Get(Delete(s, RunTier, k), RunTier, key) == if key == k then None else Get(s, RunTier, key)
    {
      GetAfterDelete(s, RunTier, k, RunTier, key);
    }
  }

  lemma DepositFrame(s: Store, group: Entry<string, seq<MemoryEntry>>, now: int, wall: int)
    requires Valid(s)
    ensures var after := Deposit(s, group, now, wall);
            && Valid(after) && after.run == s.run && after.org == s.org
            && (forall key :: key != CompactedKey(group.key) ==>
                  Get(after, ProjectTier, key) == Get(s, ProjectTier, key))
            && Get(after, ProjectTier, CompactedKey(group.key)).Some?
            && Get(after, ProjectTier, CompactedKey(group.key)).value.content ==
               NextContent(ReadResult(s, ProjectTier, CompactedKey(group.key), now), MergedContent(group.value))
  {
    var k := CompactedKey(group.key);
    var read, after := AfterRead(s, ProjectTier, k, now), Deposit(s, group, now, wall);
    ReadFrame(s, k, now);
    var next := NextContent(ReadResult(s, ProjectTier, k, now), MergedContent(group.value));
    var written := MemoryEntry(k, next, wall, wall, 0, group.key);
    SetKeepsValid(read, ProjectTier, written);
    forall key
      ensures Get(after, ProjectTier, key) == if key == k then Some(written) else Get(read, ProjectTier, key)
    {
      GetAfterSet(read, ProjectTier, written, ProjectTier, key);
    }
  }

  lemma ReadFrame(s: Store, k: string, now: int)
    requires Valid(s)
    ensures var read := AfterRead(s, ProjectTier, k, now);
            && Valid(read) && read.run == s.run && read.org == s.org
            && (forall key :: key != k ==> Get(read, ProjectTier, key) == Get(s, ProjectTier, key))
  {
    var found := Get(s, ProjectTier, k);
    if found.Some? {
      FindKeyed(s.project, k);
      SetKeepsValid(s, ProjectTier, Touched(found.value, now));
      DeleteKeepsValid(s, ProjectTier, k);
      forall key
        ensures key != k ==> Get(AfterRead(s, ProjectTier, k, now), ProjectTier, key) == Get(s, ProjectTier, key)
      {
        GetAfterSet(s, ProjectTier, Touched(found.value, now), ProjectTier, key);
        GetAfterDelete(s, ProjectTier, k, ProjectTier, key);
      }
    }
  }

  /** Row keys of the groups that are not blank. */
  function Pruned(groups: Groups): seq<string> {
    if groups == [] then []
    else
      var last := groups[|groups| - 1];
      Pruned(groups[..|groups| - 1]) + if Blank(last) then [] else KeysOf(last.value)
  }

  /** The groups partition run entries of `s`. */
  ghost predicate GroupsIn(groups: Groups, s: Store) {
    && DistinctKeys(groups)
    && (forall i :: 0 <= i < |groups| ==> DistinctRowKeys(groups[i].value))
    && (forall i, e :: 0 <= i < |groups| && e in groups[i].value ==> Get(s, RunTier, e.key) == Some(e))
    && (forall i, e :: 0 <= i < |groups| && e in groups[i].value ==> GroupKey(e) == groups[i].key)
  }

  lemma {:induction false} PrunedKeys(groups: Groups, key: string)
    ensures key in Pruned(groups) <==>
            exists i, e :: 0 <= i < |groups| && !Blank(groups[i]) && e in groups[i].value && e.key == key
  {
    if groups != [] {
      var n := |groups| - 1;
      var init, last := groups[..n], groups[n];
      PrunedKeys(init, key);
      if key in KeysOf(last.value) {
        var j :| 0 <= j < |last.value| && KeysOf(last.value)[j] == key;
        assert last.value[j] in last.value && last.value[j].key == key;
      }
      if i, e :| 0 <= i < |groups| && !Blank(groups[i]) && e in groups[i].value && e.key == key {
        if i == n {
          var j :| 0 <= j < |last.value| && last.value[j] == e;
          assert KeysOf(last.value)[j] == key;
        } else {
          assert init[i] == groups[i];
        }
      }
      if key in Pruned(init) {
        var i, e :| 0 <= i < n && !Blank(init[i]) && e in init[i].value && e.key == key;
        assert groups[i] == init[i];
      }
    }
  }

  lemma SameKeySameGroup(groups: Groups, s: Store, i: nat, e: MemoryEntry, j: nat, f: MemoryEntry)
    requires GroupsIn(groups, s) && i < |groups| && j < |groups|
    requires e in groups[i].value && f in groups[j].value && e.key == f.key
    ensures i == j && e == f
  {
    assert groups[i].key == GroupKey(e) && groups[j].key == GroupKey(f);
  }

  lemma GroupsInPrefix(groups: Groups, s: Store, n: nat)
    requires GroupsIn(groups, s) && n <= |groups|
    ensures GroupsIn(groups[..n], s)
  {
    forall i, e | 0 <= i < n && e in groups[..n][i].value
      ensures Get(s, RunTier, e.key) == Some(e) && GroupKey(e) == groups[..n][i].key
    {
      assert e in groups[i].value;
    }
  }

  /** A row of the last group has not been pruned with an earlier one. */
  lemma LastGroupUntouched(groups: Groups, s: Store, e: MemoryEntry)
    requires groups != [] && GroupsIn(groups, s) && e in groups[|groups| - 1].value
    ensures e.key !in Pruned(groups[..|groups| - 1])
  {
    var n := |groups| - 1;
    PrunedKeys(groups[..n], e.key);
    if e.key in Pruned(groups[..n]) {
      var i, f :| 0 <= i < n && !Blank(groups[..n][i]) && f in groups[..n][i].value && f.key == e.key;
      SameKeySameGroup(groups, s, i, f, n, e);
    }
  }

  ghost predicate RunAccount(s: Store, pruned: seq<string>, p: Progress) {
    && Valid(p.store) && p.store.org == s.org
    && p.prunedRunKeys == pruned
    && p.compactedEntries == |pruned| == |s.run| - |p.store.run|
    && (forall key :: Get(p.store, RunTier, key) == if key in pruned then None else Get(s, RunTier, key))
  }

  lemma RunAccountStep(s: Store, pruned: seq<string>, p: Progress, group: Entry<string, seq<MemoryEntry>>, now: int, wall: int)
    requires Valid(s) && RunAccount(s, pruned, p) && !Blank(group) && DistinctRowKeys(group.value)
    requires forall e :: e in group.value ==> e.key !in pruned && Get(s, RunTier, e.key) == Some(e)
    ensures RunAccount(s, pruned + KeysOf(group.value), CompactGroup(p, group, now, wall))
  {
    hide Blank, DeleteRows, Deposit, NextContent, ReadResult, ContentBytes;
    DepositFrame(p.store, group, now, wall);
    DeleteRowsRun(Deposit(p.store, group, now, wall), group.value);
  }

  lemma {:induction false} RunAccounts(s: Store, groups: Groups, now: int, wall: int)
    requires Valid(s) && GroupsIn(groups, s)
    ensures RunAccount(s, Pruned(groups), CompactGroups(s, groups, now, wall))
  {
    if groups != [] {
      hide CompactGroup, RunAccount;
      var n := |groups| - 1;
      GroupsInPrefix(groups, s, n);
      RunAccounts(s, groups[..n], now, wall);
      if Blank(groups[n]) {
        BlankDoesNothing(CompactGroups(s, groups[..n], now, wall), groups[n], now, wall);
      } else {
        forall e | e in groups[n].value
          ensures e.key !in Pruned(groups[..n]) && Get(s, RunTier, e.key) == Some(e)
        {
          LastGroupUntouched(groups, s, e);
        }
        RunAccountStep(s, Pruned(groups[..n]), CompactGroups(s, groups[..n], now, wall), groups[n], now, wall);
      }
    }
  }

  lemma BlankDoesNothing(p: Progress, group: Entry<string, seq<MemoryEntry>>, now: int, wall: int)
    requires Blank(group)
    ensures CompactGroup(p, group, now, wall) == p
  {
  }

  // ----- Project tier

  /** The compacted entry of `g`, once it has been written, contains `part`. */
  ghost predicate Holds(s: Store, g: string, part: Text) {
    var found := Get(s, ProjectTier, CompactedKey(g));
    found.Some? && Contains(found.value.content, part)
  }

  lemma DeleteRowsProject(s: Store, rows: seq<MemoryEntry>)
    ensures DeleteRows(s, rows).project == s.project
  {
  }

  lemma GroupFrame(p: Progress, group: Entry<string, seq<MemoryEntry>>, now: int, wall: int, key: string)
    requires Valid(p.store) && key != CompactedKey(group.key)
    ensures Get(CompactGroup(p, group, now, wall).store, ProjectTier, key) == Get(p.store, ProjectTier, key)
  {
    if !Blank(group) {
      DepositFrame(p.store, group, now, wall);
      DeleteRowsProject(Deposit(p.store, group, now, wall), group.value);
    }
  }

  /** Every visible content of the group is in the deposited text. */
  lemma DepositHoldsRow(p: Progress, group: Entry<string, seq<MemoryEntry>>, now: int, wall: int, e: MemoryEntry)
    requires Valid(p.store) && e in group.value && Trim(e.content) != []
    ensures !Blank(group)
    ensures Holds(CompactGroup(p, group, now, wall).store, group.key, Trim(e.content))
  {
    var part, merged := Trim(e.content), MergedContent(group.value);
    var i :| 0 <= i < |group.value| && group.value[i] == e;
    assert TrimmedContents(group.value)[i] == part;
    MergeContains(TrimmedContents(group.value), part);
    MergeBlankIff(TrimmedContents(group.value));
    var existing := ReadResult(p.store, ProjectTier, CompactedKey(group.key), now);
    NextContentHoldsMerged(existing, merged);
    ContainsTransitive(NextContent(existing, merged), merged, part);
    DepositFrame(p.store, group, now, wall);
    DeleteRowsProject(Deposit(p.store, group, now, wall), group.value);
  }

  lemma NextContentHoldsMerged(existing: Option<MemoryEntry>, merged: Text)
    requires merged != []
    ensures Contains(NextContent(existing, merged), merged)
  {
    if existing.Some? && existing.value.content != [] {
      MergeContains([Trim(existing.value.content), merged], merged);
    } else {
      ContainsSelf(merged);
    }
  }

  lemma NextContentHoldsExisting(existing: MemoryEntry, merged: Text, part: Text)
    requires Contains(existing.content, part) && Solid(part)
    ensures Contains(NextContent(Some(existing), merged), part)
  {
    var trimmed := Trim(existing.content);
    TrimKeeps(existing.content, part);
    var a, b :| trimmed == a + part + b;
    var c, d :| existing.content == c + part + d;
    MergeContains([trimmed, merged], trimmed);
    ContainsTransitive(NextContent(Some(existing), merged), trimmed, part);
  }

  lemma CompactedKeyInjective(g: string, h: string)
    ensures CompactedKey(g) == CompactedKey(h) ==> g == h
  {
    if CompactedKey(g) == CompactedKey(h) {
      assert g == CompactedKey(g)[10..] && h == CompactedKey(h)[10..];
    }
  }

  lemma {:induction false} GroupsFrame(s: Store, groups: Groups, now: int, wall: int, g: string)
    requires Valid(s) && GroupsIn(groups, s)
    requires forall i :: 0 <= i < |groups| ==> groups[i].key != g
    ensures Get(CompactGroups(s, groups, now, wall).store, ProjectTier, CompactedKey(g)) ==
            Get(s, ProjectTier, CompactedKey(g))
  {
    if groups != [] {
      hide CompactGroup;
      var n := |groups| - 1;
      GroupsInPrefix(groups, s, n);
      GroupsFrame(s, groups[..n], now, wall, g);
      RunAccounts(s, groups[..n], now, wall);
      CompactedKeyInjective(g, groups[n].key);
      GroupFrame(CompactGroups(s, groups[..n], now, wall), groups[n], now, wall, CompactedKey(g));
    }
  }

  lemma {:induction false} GroupsHoldRow(s: Store, groups: Groups, now: int, wall: int, i: nat, e: MemoryEntry)
    requires Valid(s) && GroupsIn(groups, s) && i < |groups| && e in groups[i].value && Trim(e.content) != []
    ensures Holds(CompactGroups(s, groups, now, wall).store, groups[i].key, Trim(e.content))
  {
    hide CompactGroup, Trim, Contains;
    var n := |groups| - 1;
    GroupsInPrefix(groups, s, n);
    RunAccounts(s, groups[..n], now, wall);
    if i == n {
      DepositHoldsRow(CompactGroups(s, groups[..n], now, wall), groups[n], now, wall, e);
    } else {
      GroupsHoldRow(s, groups[..n], now, wall, i, e);
      assert groups[i].key != groups[n].key;
      CompactedKeyInjective(groups[i].key, groups[n].key);
      GroupFrame(CompactGroups(s, groups[..n], now, wall), groups[n], now, wall, CompactedKey(groups[i].key));
    }
  }

  /** Compacting again keeps what a live compacted entry contains. */
  lemma {:induction false} GroupsKeep(s: Store, groups: Groups, now: int, wall: int, g: string, part: Text)
    requires Valid(s) && GroupsIn(groups, s) && Solid(part) && Holds(s, g, part)
    requires Live(ProjectTier, Get(s, ProjectTier, CompactedKey(g)), now).Some?
    ensures Holds(CompactGroups(s, groups, now, wall).store, g, part)
  {
    if groups != [] {
      hide CompactGroup, Contains, Solid;
      var n := |groups| - 1;
      var p := CompactGroups(s, groups[..n], now, wall);
      GroupsInPrefix(groups, s, n);
      RunAccounts(s, groups[..n], now, wall);
      CompactedKeyInjective(g, groups[n].key);
      if groups[n].key == g {
        GroupsFrame(s, groups[..n], now, wall, g);
        DepositKeeps(p, groups[n], now, wall, part);
      } else {
        GroupsKeep(s, groups[..n], now, wall, g, part);
        GroupFrame(p, groups[n], now, wall, CompactedKey(g));
      }
    }
  }

  lemma DepositKeeps(p: Progress, group: Entry<string, seq<MemoryEntry>>, now: int, wall: int, part: Text)
    requires Valid(p.store) && Solid(part) && Holds(p.store, group.key, part)
    requires Live(ProjectTier, Get(p.store, ProjectTier, CompactedKey(group.key)), now).Some?
    ensures Holds(CompactGroup(p, group, now, wall).store, group.key, part)
  {
    if !Blank(group) {
      var existing := ReadResult(p.store, ProjectTier, CompactedKey(group.key), now);
      NextContentHoldsExisting(existing.value, MergedContent(group.value), part);
      DepositFrame(p.store, group, now, wall);
      DeleteRowsProject(Deposit(p.store, group, now, wall), group.value);
    }
  }

  // ----- Main results

  lemma {:induction false} SweptRun(c: Collection, now: int)
    ensures Swept(RunTier, c, now) == c
  {
    if c != [] {
      SweptRun(c[1..], now);
    }
  }

  ghost predicate IsEligible(s: Store, now: int, maxAgeMs: int, e: MemoryEntry) {
    Get(s, RunTier, e.key) == Some(e) && now - e.writtenAt >= maxAgeMs
  }

  lemma EligibleEntries(s: Store, now: int, maxAgeMs: int, keyLeq: (string, string) -> bool)
    requires Valid(s) && KeyOrder(keyLeq)
    ensures forall e :: e in Eligible(s, now, maxAgeMs, keyLeq) <==> IsEligible(s, now, maxAgeMs, e)
    ensures Distinct(Eligible(s, now, maxAgeMs, keyLeq))
  {
    var listed := ListResult(s, RunTier, now, keyLeq);
    ListIsUnexpiredInKeyOrder(s, RunTier, now, keyLeq);
    FilterDistinct(listed, (e: MemoryEntry) => now - e.writtenAt >= maxAgeMs);
  }

  lemma CompactionGroups(s: Store, now: int, maxAgeMs: int, keyLeq: (string, string) -> bool)
    requires Valid(s) && KeyOrder(keyLeq)
    ensures var eligible := Eligible(s, now, maxAgeMs, keyLeq);
            GroupsOf(Grouped(eligible), eligible) && GroupsIn(Grouped(eligible), s)
    ensures AfterEvict(s, RunTier, now) == s
  {
    var eligible := Eligible(s, now, maxAgeMs, keyLeq);
    var groups := Grouped(eligible);
    EligibleEntries(s, now, maxAgeMs, keyLeq);
    GroupedGroups(eligible);
    SweptRun(s.run, now);
    forall i | 0 <= i < |groups|
      ensures DistinctRowKeys(groups[i].value)
      ensures forall e :: e in groups[i].value ==> e in eligible && GroupKey(e) == groups[i].key
    {
      GroupRows(groups, eligible, i);
      FilterDistinct(eligible, InGroup(groups[i].key));
      EligibleKeysDistinct(s, groups[i].value);
    }
  }

  lemma EligibleKeysDistinct(s: Store, rows: seq<MemoryEntry>)
    requires Distinct(rows) && forall e :: e in rows ==> Get(s, RunTier, e.key) == Some(e)
    ensures DistinctRowKeys(rows)
  {
    forall i, j | 0 <= i < j < |rows|
      ensures rows[i].key != rows[j].key
    {
      assert rows[i] in rows && rows[j] in rows;
    }
  }

  /** Everything in the group of `e` is blank. */
  ghost predicate GroupIsBlank(s: Store, now: int, maxAgeMs: int, g: string) {
    forall e :: IsEligible(s, now, maxAgeMs, e) && GroupKey(e) == g ==> Trim(e.content) == []
  }

  lemma BlankRows(rows: seq<MemoryEntry>)
    ensures MergedContent(rows) == [] <==> forall e :: e in rows ==> Trim(e.content) == []
  {
    hide MergeTexts, Trim;
    var texts := TrimmedContents(rows);
    MergeBlankIff(texts);
    if MergedContent(rows) == [] {
      forall e | e in rows
        ensures Trim(e.content) == []
      {
        var j :| 0 <= j < |rows| && rows[j] == e;
        assert texts[j] in texts;
      }
    } else {
      var t :| t in texts && t != [];
      var j :| 0 <= j < |texts| && texts[j] == t;
      assert rows[j] in rows;
    }
  }

  lemma BlankIff(s: Store, now: int, maxAgeMs: int, keyLeq: (string, string) -> bool, i: nat)
    requires Valid(s) && KeyOrder(keyLeq) && i < |Grouped(Eligible(s, now, maxAgeMs, keyLeq))|
    ensures var group := Grouped(Eligible(s, now, maxAgeMs, keyLeq))[i];
            Blank(group) <==> GroupIsBlank(s, now, maxAgeMs, group.key)
  {
    hide Eligible, IsEligible, Trim, MergedContent, Valid;
    var eligible := Eligible(s, now, maxAgeMs, keyLeq);
    var group := Grouped(eligible)[i];
    CompactionGroups(s, now, maxAgeMs, keyLeq);
    EligibleEntries(s, now, maxAgeMs, keyLeq);
    GroupRows(Grouped(eligible), eligible, i);
    BlankRows(group.value);
  }

  /** Compaction loses nothing: an entry that is too young stays, an old one stays when
      its whole group is blank, and otherwise it goes with its trimmed content contained
      in the compacted entry of its group. */
  lemma CompactionLosesNothing(s: Store, now: int, wall: int, maxAgeMs: int, keyLeq: (string, string) -> bool,
                               e: MemoryEntry)
    requires Valid(s) && KeyOrder(keyLeq) && Get(s, RunTier, e.key) == Some(e)
    ensures var after, g := Compacted(s, now, wall, maxAgeMs, keyLeq).store, GroupKey(e);
            if now - e.writtenAt < maxAgeMs || GroupIsBlank(s, now, maxAgeMs, g) then
              Get(after, RunTier, e.key) == Some(e)
            else
              Get(after, RunTier, e.key) == None && (Trim(e.content) != [] ==> Holds(after, g, Trim(e.content)))
  {
    var eligible := Eligible(s, now, maxAgeMs, keyLeq);
    var groups := Grouped(eligible);
    CompactionGroups(s, now, maxAgeMs, keyLeq);
    EligibleEntries(s, now, maxAgeMs, keyLeq);
    RunAccounts(s, groups, now, wall);
    PrunedKeys(groups, e.key);
    if now - e.writtenAt >= maxAgeMs {
      var i := GroupOfEntry(groups, eligible, e);
      BlankIff(s, now, maxAgeMs, keyLeq, i);
      if GroupIsBlank(s, now, maxAgeMs, GroupKey(e)) {
        NotPruned(s, groups, e, i);
      } else {
        assert e.key in Pruned(groups);
        if Trim(e.content) != [] {
          GroupsHoldRow(s, groups, now, wall, i, e);
        }
      }
    } else if e.key in Pruned(groups) {
      var j, f :| 0 <= j < |groups| && !Blank(groups[j]) && f in groups[j].value && f.key == e.key;
      GroupRows(groups, eligible, j);
    }
  }

  lemma NotPruned(s: Store, groups: Groups, e: MemoryEntry, i: nat)
    requires GroupsIn(groups, s) && i < |groups| && Blank(groups[i]) && e in groups[i].value
    ensures e.key !in Pruned(groups)
  {
    PrunedKeys(groups, e.key);
    if e.key in Pruned(groups) {
      var j, f :| 0 <= j < |groups| && !Blank(groups[j]) && f in groups[j].value && f.key == e.key;
      SameKeySameGroup(groups, s, i, e, j, f);
    }
  }

  /** The counters are exact: entries compacted, keys reported and the shrinking of the run
      tier agree; the org tier and unrelated project entries are untouched. */
  lemma CompactionCounts(s: Store, now: int, wall: int, maxAgeMs: int, keyLeq: (string, string) -> bool, key: string)
    requires Valid(s) && KeyOrder(keyLeq)
    ensures var p := Compacted(s, now, wall, maxAgeMs, keyLeq);
            && p.compactedEntries == |p.prunedRunKeys| == |s.run| - |p.store.run|
            && p.store.org == s.org && Valid(p.store)
            && (key in p.prunedRunKeys <==>
                  Get(s, RunTier, key).Some? && Get(p.store, RunTier, key).None?)
  {
    var groups := Grouped(Eligible(s, now, maxAgeMs, keyLeq));
    CompactionGroups(s, now, maxAgeMs, keyLeq);
    RunAccounts(s, groups, now, wall);
    PrunedArePresent(groups, s, key);
    hide CompactGroups, Pruned, Grouped, Eligible, GroupsIn, GroupsOf;
  }

  lemma PrunedArePresent(groups: Groups, s: Store, key: string)
    requires GroupsIn(groups, s)
    ensures key in Pruned(groups) ==> Get(s, RunTier, key).Some?
  {
    hide Pruned, Blank, Get, DistinctRowKeys, DistinctKeys;
    PrunedKeys(groups, key);
    if i, e :| 0 <= i < |groups| && !Blank(groups[i]) && e in groups[i].value && e.key == key {
      assert Get(s, RunTier, e.key) == Some(e);
    }
  }

  /** What a live compacted entry contains survives the next compaction. */
  lemma CompactionKeeps(s: Store, now: int, wall: int, maxAgeMs: int, keyLeq: (string, string) -> bool,
                        g: string, part: Text)
    requires Valid(s) && KeyOrder(keyLeq) && Solid(part) && Holds(s, g, part)
    requires Live(ProjectTier, Get(s, ProjectTier, CompactedKey(g)), now).Some?
    ensures Holds(Compacted(s, now, wall, maxAgeMs, keyLeq).store, g, part)
  {
    CompactionGroups(s, now, maxAgeMs, keyLeq);
    GroupsKeep(s, Grouped(Eligible(s, now, maxAgeMs, keyLeq)), now, wall, g, part);
  }

  /** Where to look for it: under the topic of the entry, or under its own key if it has none. */
  lemma CompactedUnderTopic(s: Store, now: int, wall: int, maxAgeMs: int, keyLeq: (string, string) -> bool, e: MemoryEntry)
    requires Valid(s) && KeyOrder(keyLeq) && Get(s, RunTier, e.key) == Some(e)
    requires now - e.writtenAt >= maxAgeMs && Trim(e.content) != []
    ensures var after := Compacted(s, now, wall, maxAgeMs, keyLeq).store;
            var found := Get(after, ProjectTier, "compacted:" + (if e.topic == "" then e.key else e.topic));
            && Get(after, RunTier, e.key) == None
            && found.Some? && Contains(found.value.content, Trim(e.content))
  {
    assert IsEligible(s, now, maxAgeMs, e);
    hide Compacted, Trim, IsEligible;
    CompactionLosesNothing(s, now, wall, maxAgeMs, keyLeq, e);
  }

  // ----- Bytes

  /** What the entries under `keys` take up. */
  function BytesAt(s: Store, tier: Tier, keys: seq<string>): nat {
    if keys == [] then 0
    else
      var found := Get(s, tier, keys[|keys| - 1]);
      BytesAt(s, tier, keys[..|keys| - 1]) + if found.Some? then Bytes(found.value.content) else 0
  }

  /** The keys of the groups that are not blank. */
  function Topics(groups: Groups): seq<string> {
    if groups == [] then []
    else
      var last := groups[|groups| - 1];
      Topics(groups[..|groups| - 1]) + if Blank(last) then [] else [last.key]
  }

  lemma {:induction false} TopicsMember(groups: Groups, topic: string)
    ensures topic in Topics(groups) ==> exists i :: 0 <= i < |groups| && !Blank(groups[i]) && groups[i].key == topic
  {
    hide Blank;
    if groups != [] && topic in Topics(groups) {
      var n := |groups| - 1;
      if topic in Topics(groups[..n]) {
        TopicsMember(groups[..n], topic);
        var i :| 0 <= i < n && !Blank(groups[..n][i]) && groups[..n][i].key == topic;
        assert groups[i].key == topic;
      } else {
        assert !Blank(groups[n]) && groups[n].key == topic;
      }
    }
  }

  lemma {:induction false} BytesAppend(s: Store, tier: Tier, a: seq<string>, b: seq<string>)
    ensures BytesAt(s, tier, a + b) == BytesAt(s, tier, a) + BytesAt(s, tier, b)
    decreases b
  {
    if b == [] {
      assert a + b == a;
    } else {
      assert (a + b)[..|a + b| - 1] == a + b[..|b| - 1];
      BytesAppend(s, tier, a, b[..|b| - 1]);
    }
  }

  lemma {:induction false} RowBytes(s: Store, rows: seq<MemoryEntry>)
    requires forall e :: e in rows ==> Get(s, RunTier, e.key) == Some(e)
    ensures BytesAt(s, RunTier, KeysOf(rows)) == ContentBytes(rows)
  {
    if rows != [] {
      var n := |rows| - 1;
      RowBytes(s, rows[..n]);
      assert KeysOf(rows)[..n] == KeysOf(rows[..n]);
      assert rows[n] in rows;
    }
  }

  lemma {:induction false} SameBytes(s: Store, t: Store, tier: Tier, keys: seq<string>)
    requires forall key :: key in keys ==> Get(s, tier, key) == Get(t, tier, key)
    ensures BytesAt(s, tier, keys) == BytesAt(t, tier, keys)
  {
    if keys != [] {
      assert keys[|keys| - 1] in keys;
      SameBytes(s, t, tier, keys[..|keys| - 1]);
    }
  }

  function CompactedKeys(topics: seq<string>): seq<string> { Map(topics, CompactedKey) }

  lemma DepositedContent(p: Progress, group: Entry<string, seq<MemoryEntry>>, now: int, wall: int)
    requires Valid(p.store) && !Blank(group)
    ensures var after := CompactGroup(p, group, now, wall);
            var found := Get(after.store, ProjectTier, CompactedKey(group.key));
            found.Some? && after.bytesAfter == p.bytesAfter + Bytes(found.value.content)
  {
    DepositFrame(p.store, group, now, wall);
    DeleteRowsProject(Deposit(p.store, group, now, wall), group.value);
  }

  ghost predicate BytesAre(s: Store, pruned: seq<string>, topics: seq<string>, p: Progress) {
    && p.bytesBefore == BytesAt(s, RunTier, pruned) && p.projectEntriesCreated == |topics|
    && p.bytesAfter == BytesAt(p.store, ProjectTier, CompactedKeys(topics))
  }

  lemma DepositedAlone(p: Progress, group: Entry<string, seq<MemoryEntry>>, now: int, wall: int, topics: seq<string>)
    requires Valid(p.store) && group.key !in topics
    ensures BytesAt(CompactGroup(p, group, now, wall).store, ProjectTier, CompactedKeys(topics)) ==
            BytesAt(p.store, ProjectTier, CompactedKeys(topics))
  {
    hide CompactGroup, Get, Valid;
    forall key | key in CompactedKeys(topics)
      ensures Get(CompactGroup(p, group, now, wall).store, ProjectTier, key) == Get(p.store, ProjectTier, key)
    {
      var i :| 0 <= i < |topics| && CompactedKeys(topics)[i] == key;
      assert topics[i] in topics;
      CompactedKeyInjective(topics[i], group.key);
      GroupFrame(p, group, now, wall, key);
    }
    SameBytes(CompactGroup(p, group, now, wall).store, p.store, ProjectTier, CompactedKeys(topics));
  }

  lemma GroupCounts(p: Progress, group: Entry<string, seq<MemoryEntry>>, now: int, wall: int)
    requires !Blank(group)
    ensures var after := CompactGroup(p, group, now, wall);
            && after.bytesBefore == p.bytesBefore + ContentBytes(group.value)
            && after.projectEntriesCreated == p.projectEntriesCreated + 1
  {
  }

  lemma BytesOfOne(s: Store, tier: Tier, key: string)
    requires Get(s, tier, key).Some?
    ensures BytesAt(s, tier, [key]) == Bytes(Get(s, tier, key).value.content)
  {
    assert [key][..0] == [] && BytesAt(s, tier, [key][..0]) == 0;
  }

  lemma BytesStep(s: Store, pruned: seq<string>, topics: seq<string>, p: Progress, group: Entry<string, seq<MemoryEntry>>,
                  now: int, wall: int)
    requires Valid(p.store) && !Blank(group) && BytesAre(s, pruned, topics, p) && group.key !in topics
    requires forall e :: e in group.value ==> Get(s, RunTier, e.key) == Some(e)
    ensures BytesAre(s, pruned + KeysOf(group.value), topics + [group.key], CompactGroup(p, group, now, wall))
  {
    hide CompactGroup, Get, Valid, Blank, Bytes, ContentBytes, BytesAt, KeysOf, CompactedKey;
    var after, key := CompactGroup(p, group, now, wall), CompactedKey(group.key);
    GroupCounts(p, group, now, wall);
    RowBytes(s, group.value);
    BytesAppend(s, RunTier, pruned, KeysOf(group.value));
    DepositedContent(p, group, now, wall);
    DepositedAlone(p, group, now, wall, topics);
    assert CompactedKeys(topics + [group.key]) == CompactedKeys(topics) + [key];
    BytesAppend(after.store, ProjectTier, CompactedKeys(topics), [key]);
    BytesOfOne(after.store, ProjectTier, key);
  }

  lemma {:induction false} BytesAccount(s: Store, groups: Groups, now: int, wall: int)
    requires Valid(s) && GroupsIn(groups, s)
    ensures BytesAre(s, Pruned(groups), Topics(groups), CompactGroups(s, groups, now, wall))
  {
    if groups != [] {
      hide CompactGroup, BytesAre, Blank, Get, Valid, GroupKey;
      var n := |groups| - 1;
      var p, group := CompactGroups(s, groups[..n], now, wall), groups[n];
      GroupsInPrefix(groups, s, n);
      BytesAccount(s, groups[..n], now, wall);
      RunAccounts(s, groups[..n], now, wall);
      if Blank(group) {
        BlankDoesNothing(p, group, now, wall);
        assert Pruned(groups[..n]) + [] == Pruned(groups[..n]) && Topics(groups[..n]) + [] == Topics(groups[..n]);
      } else {
        LastTopicIsNew(groups, s);
        BytesStep(s, Pruned(groups[..n]), Topics(groups[..n]), p, group, now, wall);
      }
    } else {
      assert CompactedKeys([]) == [];
    }
  }

  lemma LastTopicIsNew(groups: Groups, s: Store)
    requires groups != [] && GroupsIn(groups, s)
    ensures groups[|groups| - 1].key !in Topics(groups[..|groups| - 1])
  {
    var n := |groups| - 1;
    hide Blank, Topics, GroupKey, Get;
    TopicsMember(groups[..n], groups[n].key);
  }

  /** The counts of a compaction are about what is there: the bytes before are those of the run
      entries that went, the bytes after those of the compacted entries of their topics, of which
      there are as many as entries were created. */
  lemma CompactionBytes(s: Store, now: int, wall: int, maxAgeMs: int, keyLeq: (string, string) -> bool) returns (topics: seq<string>)
    requires Valid(s) && KeyOrder(keyLeq)
    ensures var p := Compacted(s, now, wall, maxAgeMs, keyLeq);
            && p.bytesBefore == BytesAt(s, RunTier, p.prunedRunKeys)
            && p.bytesAfter == BytesAt(p.store, ProjectTier, CompactedKeys(topics)) && p.projectEntriesCreated == |topics|
            && forall topic :: topic in topics ==> !GroupIsBlank(s, now, maxAgeMs, topic)
  {
    var eligible := Eligible(s, now, maxAgeMs, keyLeq);
    var groups := Grouped(eligible);
    topics := Topics(groups);
    CompactionGroups(s, now, maxAgeMs, keyLeq);
    RunAccounts(s, groups, now, wall);
    BytesAccount(s, groups, now, wall);
    forall topic | topic in topics
      ensures !GroupIsBlank(s, now, maxAgeMs, topic)
    {
      TopicsMember(groups, topic);
      var i :| 0 <= i < |groups| && !Blank(groups[i]) && groups[i].key == topic;
      BlankIff(s, now, maxAgeMs, keyLeq, i);
    }
  }
}
