/** The adapter result cache: lazy expiry, write-through persistence, reload from disk. */
module AdapterCache {
  import opened Sequences
  import opened OrderedMaps

  type Result = string

  datatype CacheEntry = CacheEntry(
    key: string,
    adapter: string,
    operation: string,
    paramsHash: string,
    result: Result,
    timestamp: int,
    ttlMs: int)

  /** The cache file: missing, unreadable, or a list of entries. */
  datatype File = Missing | Corrupt | Saved(entries: seq<CacheEntry>)

  type Entries = OrderedMap<string, CacheEntry>

  function BuildKey(adapter: string, operation: string, paramsHash: string): string {
    adapter + ":" + operation + ":" + paramsHash
  }

  /** Without colons in adapters and operations only the same call has the same key. */
  lemma KeyIsUnique(adapter: string, operation: string, paramsHash: string,
                    otherAdapter: string, otherOperation: string, otherHash: string)
    requires ':' !in adapter && ':' !in operation && ':' !in otherAdapter && ':' !in otherOperation
    ensures BuildKey(adapter, operation, paramsHash) == BuildKey(otherAdapter, otherOperation, otherHash) <==>
            adapter == otherAdapter && operation == otherOperation && paramsHash == otherHash
  {
    assert BuildKey(adapter, operation, paramsHash) == adapter + ":" + (operation + ":" + paramsHash);
    assert BuildKey(otherAdapter, otherOperation, otherHash) == otherAdapter + ":" + (otherOperation + ":" + otherHash);
    if BuildKey(adapter, operation, paramsHash) == BuildKey(otherAdapter, otherOperation, otherHash) {
      SameUpToColon(adapter, operation + ":" + paramsHash, otherAdapter, otherOperation + ":" + otherHash);
      SameUpToColon(operation, paramsHash, otherOperation, otherHash);
    }
  }

  lemma SameUpToColon(a: string, rest: string, b: string, other: string)
    requires ':' !in a && ':' !in b && a + ":" + rest == b + ":" + other
    ensures a == b && rest == other
  {
    var s := a + ":" + rest;
    assert s[|a|] == ':' && s[|b|] == ':';
    assert |a| == |b|;
    assert a == s[..|a|] && b == s[..|b|];
    assert rest == s[|a| + 1..] && other == s[|b| + 1..];
  }

  /** With one, two different calls can share an entry. */
  lemma KeysCollide(paramsHash: string)
    ensures BuildKey("a:b", "c", paramsHash) == BuildKey("a", "b:c", paramsHash)
  {
    assert "a:b" + ":" + "c" == "a" + ":" + "b:c";
  }

  predicate Expired(entry: CacheEntry, now: int) {
    now - entry.timestamp > entry.ttlMs
  }

  // ----- The cache as a value

  datatype Cache = Cache(entries: Entries, file: File)

  function Persist(c: Cache, writeOk: bool): Cache {
    if writeOk then c.(file := Saved(Values(c.entries))) else c
  }

  function Lookup(c: Cache, key: string, now: int): Option<Result> {
    var found := Find(c.entries, key);
    if found.Some? && !Expired(found.value, now) then Some(found.value.result) else None
  }

  function AfterGet(c: Cache, key: string, now: int, writeOk: bool): Cache {
    var found := Find(c.entries, key);
    if found.Some? && Expired(found.value, now) then Persist(c.(entries := Remove(c.entries, key)), writeOk) else c
  }

  function AfterSet(c: Cache, entry: CacheEntry, writeOk: bool): Cache {
    Persist(c.(entries := Put(c.entries, entry.key, entry)), writeOk)
  }

  function AfterInvalidate(c: Cache, key: string, writeOk: bool): Cache {
    if Find(c.entries, key).Some? then Persist(c.(entries := Remove(c.entries, key)), writeOk) else c
  }

  function WithoutAdapter(entries: Entries, adapter: string): Entries {
    if entries == [] then []
    else if entries[0].value.adapter == adapter then WithoutAdapter(entries[1..], adapter)
    else [entries[0]] + WithoutAdapter(entries[1..], adapter)
  }

  function AfterInvalidateAdapter(c: Cache, adapter: string, writeOk: bool): Cache {
    var kept := WithoutAdapter(c.entries, adapter);
    if |kept| < |c.entries| then Persist(c.(entries := kept), writeOk) else c
  }

  /** Entries that have expired are skipped; a later entry for a key replaces an earlier one. */
  function LoadEntries(saved: seq<CacheEntry>, now: int): Entries {
    if saved == [] then []
    else
      var init, last := LoadEntries(saved[..|saved| - 1], now), saved[|saved| - 1];
      if Expired(last, now) then init else Put(init, last.key, last)
  }

  /** A file that cannot be read leaves the cache empty, as a missing one does. */
  function Load(file: File, readOk: bool, now: int): Entries {
    if readOk && file.Saved? then LoadEntries(file.entries, now) else []
  }

  // ----- The cache as an object

  class CacheStore {
    var file: File
    var readable: bool
    var writable: bool

    constructor (file: File)
      ensures this.file == file && readable && writable
    {
      this.file, readable, writable := file, true, true;
    }
  }

  const DEFAULT_TTL := 3600000

  class AdapterResultCache {
    var entries: Entries
    const store: CacheStore
    const defaultTtl: int

    ghost function View(): Cache
      reads this, store
    {
      Cache(entries, store.file)
    }

    constructor (store: CacheStore, defaultTtl: Option<int>, now: int)
      ensures this.store == store
      ensures this.defaultTtl == if defaultTtl.Some? && defaultTtl.value != 0 then defaultTtl.value else 60 * 60 * 1000
      ensures View() == Cache(Load(store.file, store.readable, now), store.file)
    {
      this.store := store;
      this.defaultTtl := if defaultTtl.Some? && defaultTtl.value != 0 then defaultTtl.value else DEFAULT_TTL;
      entries := [];
      new;
      if store.readable && store.file.Saved? {
        var saved := store.file.entries;
        for i := 0 to |saved|
          invariant entries == LoadEntries(saved[..i], now)
        {
          assert saved[..i + 1][..i] == saved[..i];
          if !Expired(saved[i], now) {
            entries := Put(entries, saved[i].key, saved[i]);
          }
        }
        assert saved[..|saved|] == saved;
      }
    }

    /** A failed write is swallowed. */
    method Save()
      modifies store
      ensures View() == Persist(old(View()), old(store.writable)) && store.writable == old(store.writable)
    {
      if store.writable {
        store.file := Saved(Values(entries));
      }
    }

    method Get(adapter: string, operation: string, paramsHash: string, now: int) returns (result: Option<Result>)
      modifies this, store
      ensures result == Lookup(old(View()), BuildKey(adapter, operation, paramsHash), now)
      ensures View() == AfterGet(old(View()), BuildKey(adapter, operation, paramsHash), now, old(store.writable))
    {
      var key := BuildKey(adapter, operation, paramsHash);
      var entry := Find(entries, key);
      if entry.None? {
        return None;
      }
      if Expired(entry.value, now) {
        entries := Remove(entries, key);
        Save();
        return None;
      }
      return Some(entry.value.result);
    }

    method Set(adapter: string, operation: string, paramsHash: string, result: Result, ttl: Option<int>, now: int)
      modifies this, store
      ensures var key := BuildKey(adapter, operation, paramsHash);
              var ttlMs := if ttl.Some? then ttl.value else defaultTtl;
              View() == AfterSet(old(View()), CacheEntry(key, adapter, operation, paramsHash, result, now, ttlMs),
                                 old(store.writable))
    {
      var key := BuildKey(adapter, operation, paramsHash);
      var entry := CacheEntry(key, adapter, operation, paramsHash, result, now,
                              if ttl.Some? then ttl.value else defaultTtl);
      entries := Put(entries, key, entry);
      Save();
    }

    method Invalidate(adapter: string, operation: string, paramsHash: string) returns (deleted: bool)
      modifies this, store
      ensures deleted == Find(old(entries), BuildKey(adapter, operation, paramsHash)).Some?
      ensures View() == AfterInvalidate(old(View()), BuildKey(adapter, operation, paramsHash), old(store.writable))
    {
      var key := BuildKey(adapter, operation, paramsHash);
      deleted := Find(entries, key).Some?;
      if deleted {
        entries := Remove(entries, key);
        Save();
      }
    }

    method InvalidateAdapter(adapter: string) returns (count: nat)
      modifies this, store
      ensures count == |old(entries)| - |WithoutAdapter(old(entries), adapter)|
      ensures View() == AfterInvalidateAdapter(old(View()), adapter, old(store.writable))
    {
      count := 0;
      var kept: Entries := [];
      ghost var goal := WithoutAdapter(entries, adapter);
      for i := 0 to |entries|
        invariant kept + WithoutAdapter(entries[i..], adapter) == goal
        invariant count + |kept| == i
      {
        assert entries[i..][0] == entries[i] && entries[i..][1..] == entries[i + 1..];
        if entries[i].value.adapter == adapter {
          count := count + 1;
        } else {
          kept := kept + [entries[i]];
        }
      }
      assert kept == goal;
      if count > 0 {
        entries := kept;
        Save();
      }
    }

    method Clear()
      modifies this, store
      ensures View() == Persist(Cache([], old(store.file)), old(store.writable))
    {
      entries := [];
      Save();
    }
  }

  // ----- Histories

  datatype Op =
    | Get(key: string)
    | Set(entry: CacheEntry)
    | Invalidate(key: string)
    | InvalidateAdapter(adapter: string)
    | Clear
    | Reload(readOk: bool)

  /** One call, at time `now`, whose write to disk succeeds or not. */
  datatype Call = Call(op: Op, now: int, writeOk: bool)

  function Step(c: Cache, call: Call): Cache {
    match call.op
    case Get(key) => AfterGet(c, key, call.now, call.writeOk)
    case Set(entry) => AfterSet(c, entry.(timestamp := call.now), call.writeOk)
    case Invalidate(key) => AfterInvalidate(c, key, call.writeOk)
    case InvalidateAdapter(adapter) => AfterInvalidateAdapter(c, adapter, call.writeOk)
    case Clear => Persist(Cache([], c.file), call.writeOk)
    case Reload(readOk) => Cache(Load(c.file, readOk, call.now), c.file)
  }

  /** The cache after a history that began with no cache file. */
  function After(calls: seq<Call>): Cache {
    if calls == [] then Cache([], Missing) else Step(After(calls[..|calls| - 1]), calls[|calls| - 1])
  }

  /** The reference: the entry of the last `Set` for `key` that nothing has undone since; a
      reload that cannot read the file undoes everything. */
  function LastSet(calls: seq<Call>, key: string): Option<CacheEntry> {
    if calls == [] then None
    else
      var before, call := LastSet(calls[..|calls| - 1], key), calls[|calls| - 1];
      match call.op
      case Set(entry) => if entry.key == key then Some(entry.(timestamp := call.now)) else before
      case Invalidate(k) => if k == key then None else before
      case InvalidateAdapter(adapter) => if before.Some? && before.value.adapter == adapter then None else before
      case Clear => None
      case Reload(readOk) => if readOk then before else None
      case _ => before
  }

  ghost predicate InOrder(calls: seq<Call>) {
    forall i, j :: 0 <= i < j < |calls| ==> calls[i].now <= calls[j].now
  }

  /** Every write and every read of the file succeeds. */
  ghost predicate NothingFails(calls: seq<Call>) {
    forall i :: 0 <= i < |calls| ==> calls[i].writeOk && calls[i].op != Reload(false)
  }

  // ----- Live entries

  function Live(found: Option<CacheEntry>, now: int): Option<CacheEntry> {
    if found.Some? && !Expired(found.value, now) then found else None
  }

  function Contents(file: File): Entries {
    if file.Saved? then Map(file.entries, (e: CacheEntry) => Entry(e.key, e)) else []
  }

  ghost predicate Keyed(entries: Entries) {
    DistinctKeys(entries) && forall i :: 0 <= i < |entries| ==> entries[i].value.key == entries[i].key
  }

  lemma LiveLater(a: Option<CacheEntry>, b: Option<CacheEntry>, now: int, later: int)
    requires Live(a, now) == Live(b, now) && now <= later
    ensures Live(a, later) == Live(b, later)
  {
  }

  lemma ContentsOfSaved(entries: Entries)
    requires Keyed(entries)
    ensures Contents(Saved(Values(entries))) == entries
  {
  }

  lemma PutKeyed(entries: Entries, entry: CacheEntry)
    requires Keyed(entries)
    ensures Keyed(Put(entries, entry.key, entry))
  {
    PutKeys(entries, entry.key, entry);
    var r := Put(entries, entry.key, entry);
    forall i | 0 <= i < |r|
      ensures r[i].value.key == r[i].key
    {
      assert r[i] in r;
    }
  }

  lemma RemoveKeyed(entries: Entries, key: string)
    requires Keyed(entries)
    ensures Keyed(Remove(entries, key))
  {
    RemoveKeys(entries, key);
    var r := Remove(entries, key);
    forall i | 0 <= i < |r|
      ensures r[i].value.key == r[i].key
    {
      assert r[i] in r;
    }
  }

  lemma {:induction false} WithoutAdapterKeyed(entries: Entries, adapter: string)
    requires Keyed(entries)
    ensures Keyed(WithoutAdapter(entries, adapter))
    ensures forall e :: e in WithoutAdapter(entries, adapter) ==> e in entries
    ensures forall key :: Find(WithoutAdapter(entries, adapter), key) ==
                          (var found := Find(entries, key);
                           if found.Some? && found.value.adapter == adapter then None else found)
  {
    if entries != [] {
      var r := WithoutAdapter(entries[1..], adapter);
      WithoutAdapterKeyed(entries[1..], adapter);
      FindNone(entries[1..], entries[0].key);
      forall j | 0 <= j < |r|
        ensures r[j].key != entries[0].key
      {
        assert r[j] in r;
        assert r[j] in entries[1..];
      }
    }
  }

  lemma {:induction false} LoadFinds(saved: seq<CacheEntry>, now: int, key: string)
    requires Keyed(Contents(Saved(saved)))
    ensures Keyed(LoadEntries(saved, now))
    ensures Find(LoadEntries(saved, now), key) == Live(Find(Contents(Saved(saved)), key), now)
  {
    if saved != [] {
      var n := |saved| - 1;
      var init, last := saved[..n], saved[n];
      var contents := Contents(Saved(saved));
      assert Contents(Saved(init)) == contents[..n];
      LoadFinds(init, now, key);
      PutKeyed(LoadEntries(init, now), last);
      FindPut(LoadEntries(init, now), last.key, last, key);
      assert contents == contents[..n] + [Entry(last.key, last)];
      FindLast(contents[..n], Entry(last.key, last), key);
      FindNone(contents[..n], last.key);
    }
  }

  lemma {:induction false} FindLast(entries: Entries, last: Entry<string, CacheEntry>, key: string)
    requires DistinctKeys(entries + [last])
    ensures Find(entries + [last], key) == if last.key == key then Some(last.value) else Find(entries, key)
  {
    if entries != [] {
      assert (entries + [last])[1..] == entries[1..] + [last];
      assert (entries + [last])[0].key != (entries + [last])[|entries|].key;
      FindLast(entries[1..], last, key);
    }
  }

  // ----- What one call does to the live entries

  /** What the live entry of `key` becomes by a call other than a reload that reads the file. */
  function LiveAfter(call: Call, key: string, live: Option<CacheEntry>): Option<CacheEntry> {
    match call.op
    case Set(entry) => if entry.key == key then Live(Some(entry.(timestamp := call.now)), call.now) else live
    case Invalidate(k) => if k == key then None else live
    case InvalidateAdapter(adapter) => if live.Some? && live.value.adapter == adapter then None else live
    case Clear => None
    case Reload(_) => None
    case _ => live
  }

  /** The call tries to write the file. */
  predicate Persists(c: Cache, call: Call) {
    match call.op
    case Get(key) => Find(c.entries, key).Some? && Expired(Find(c.entries, key).value, call.now)
    case Set(_) => true
    case Invalidate(key) => Find(c.entries, key).Some?
    case InvalidateAdapter(adapter) => |WithoutAdapter(c.entries, adapter)| < |c.entries|
    case Clear => true
    case Reload(_) => false
  }

  /** The call changes memory, or may do so. */
  predicate Touches(c: Cache, call: Call) { call.op.Reload? || Persists(c, call) }

  /** After the call file and memory hold the same. */
  predicate Syncs(c: Cache, call: Call) {
    call.op == Reload(true) || (Persists(c, call) && call.writeOk)
  }

  lemma RemoveLive(entries: Entries, k: string, now: int)
    requires Keyed(entries)
    ensures Keyed(Remove(entries, k))
    ensures forall key :: Live(Find(Remove(entries, k), key), now) == if key == k then None else Live(Find(entries, key), now)
  {
    RemoveKeyed(entries, k);
    forall key
      ensures Find(Remove(entries, k), key) == if key == k then None else Find(entries, key)
    {
      FindRemove(entries, k, key);
    }
  }

  /** Memory: every call but a reload that reads the file maps live entries to live entries, key by key. */
  lemma StepLive(c: Cache, call: Call)
    requires Keyed(c.entries) && call.op != Reload(true)
    ensures Keyed(Step(c, call).entries)
    ensures forall key :: Live(Find(Step(c, call).entries, key), call.now) ==
                          LiveAfter(call, key, Live(Find(c.entries, key), call.now))
  {
    match call.op {
      case Get(k) => RemoveLive(c.entries, k, call.now);
      case Set(entry) =>
        var stamped := entry.(timestamp := call.now);
        PutKeyed(c.entries, stamped);
        forall key
          ensures Find(Put(c.entries, entry.key, stamped), key) == if key == entry.key then Some(stamped) else Find(c.entries, key)
        {
          FindPut(c.entries, entry.key, stamped, key);
        }
      case Invalidate(k) => RemoveLive(c.entries, k, call.now);
      case InvalidateAdapter(adapter) =>
        WithoutAdapterKeyed(c.entries, adapter);
        NothingRemoved(c.entries, adapter);
      case Clear =>
      case Reload(_) =>
    }
  }

  /** File: a call that writes leaves the new memory in it, every other call leaves it alone. */
  lemma StepFile(c: Cache, call: Call)
    ensures Step(c, call).file ==
            if Persists(c, call) && call.writeOk then Saved(Values(Step(c, call).entries)) else c.file
    ensures !Touches(c, call) ==> Step(c, call).entries == c.entries
  {
    if call.op.InvalidateAdapter? {
      NothingRemoved(c.entries, call.op.adapter);
    }
  }

  lemma {:induction false} NothingRemoved(entries: Entries, adapter: string)
    ensures |WithoutAdapter(entries, adapter)| <= |entries|
    ensures |WithoutAdapter(entries, adapter)| == |entries| ==> WithoutAdapter(entries, adapter) == entries
  {
    if entries != [] {
      NothingRemoved(entries[1..], adapter);
    }
  }

  // ----- What the file holds

  /** The same live entries at `now`, hence for ever after. */
  ghost predicate SameLive(a: Entries, b: Entries, now: int) {
    Keyed(a) && Keyed(b) && forall key :: Live(Find(a, key), now) == Live(Find(b, key), now)
  }

  lemma SameLiveLater(a: Entries, b: Entries, now: int, later: int)
    requires SameLive(a, b, now) && now <= later
    ensures SameLive(a, b, later)
  {
    forall key
      ensures Live(Find(a, key), later) == Live(Find(b, key), later)
    {
      LiveLater(Find(a, key), Find(b, key), now, later);
    }
  }

  lemma LoadIsSame(file: File, now: int)
    requires Keyed(Contents(file))
    ensures SameLive(Load(file, true, now), Contents(file), now)
  {
    if file.Saved? {
      LoadFinds(file.entries, now, "");
      forall key
        ensures Live(Find(Load(file, true, now), key), now) == Live(Find(Contents(file), key), now)
      {
        LoadFinds(file.entries, now, key);
      }
    }
  }

  /** How many calls of the history have reached the file: up to the last written one, or
      the last reload that has read it. */
  function SyncPoint(calls: seq<Call>): (n: nat)
    ensures n <= |calls|
  {
    if calls == [] then 0
    else
      var init, call := calls[..|calls| - 1], calls[|calls| - 1];
      if Syncs(After(init), call) then |calls| else SyncPoint(init)
  }

  /** No call has changed memory since: the last one that tried to use the file succeeded. */
  predicate Settled(calls: seq<Call>) {
    calls == [] ||
    var init, call := calls[..|calls| - 1], calls[|calls| - 1];
    if Touches(After(init), call) then Syncs(After(init), call) else Settled(init)
  }

  ghost predicate Until(calls: seq<Call>, now: int) {
    InOrder(calls) && forall i :: 0 <= i < |calls| ==> calls[i].now <= now
  }

  /** The file holds what memory held at the synchronisation point, whichever writes failed. */
  lemma {:induction false} FileIsSyncPoint(calls: seq<Call>, now: int)
    requires Until(calls, now)
    ensures Keyed(After(calls).entries)
    ensures SameLive(Contents(After(calls).file), After(calls[..SyncPoint(calls)]).entries, now)
    decreases calls
  {
    if calls == [] {
      assert Contents(Missing) == [];
    } else {
      var n := |calls| - 1;
      var init, call := calls[..n], calls[n];
      FileIsSyncPoint(init, call.now);
      hide Step, SyncPoint, Load, Contents, Persists, Syncs, Live;
      StepIsSynced(init, call);
      assert After(calls) == Step(After(init), call);
      assert calls[..|calls|] == calls;
      assert SyncPoint(calls) <= n ==> calls[..SyncPoint(calls)] == init[..SyncPoint(calls)];
      SyncPointStep(init, call);
      assert init + [call] == calls;
      SameLiveLater(Contents(After(calls).file), After(calls[..SyncPoint(calls)]).entries, call.now, now);
    }
  }

  lemma SyncPointStep(init: seq<Call>, call: Call)
    ensures SyncPoint(init + [call]) ==
            if Syncs(After(init), call) then |init| + 1 else SyncPoint(init)
  {
    assert (init + [call])[..|init|] == init;
  }

  lemma StepIsSynced(init: seq<Call>, call: Call)
    requires Keyed(After(init).entries)
    requires SameLive(Contents(After(init).file), After(init[..SyncPoint(init)]).entries, call.now)
    ensures var c := Step(After(init), call);
            && Keyed(c.entries)
            && SameLive(Contents(c.file),
                        if Syncs(After(init), call) then c.entries
                        else After(init[..SyncPoint(init)]).entries, call.now)
  {
    hide After, SyncPoint, Persists, Live, Contents, Load;
    var before := After(init);
    StepFile(before, call);
    if call.op == Reload(true) {
      LoadIsSame(before.file, call.now);
    } else {
      StepLive(before, call);
      ContentsOfSaved(Step(before, call).entries);
    }
  }

  /** Nothing that memory holds has changed since the synchronisation point. */
  lemma {:induction false} SettledIsSynced(calls: seq<Call>)
    requires Settled(calls)
    ensures After(calls[..SyncPoint(calls)]).entries == After(calls).entries
    decreases calls
  {
    assert calls[..|calls|] == calls;
    if calls != [] {
      var n := |calls| - 1;
      var init, call := calls[..n], calls[n];
      if !Touches(After(init), call) {
        SettledIsSynced(init);
        StepFile(After(init), call);
        assert calls[..SyncPoint(init)] == init[..SyncPoint(init)];
      }
    }
  }

  // ----- Main results

  lemma SameLookup(a: Cache, b: Cache, now: int)
    requires SameLive(a.entries, b.entries, now)
    ensures forall key :: Lookup(a, key, now) == Lookup(b, key, now)
  {
    forall key
      ensures Lookup(a, key, now) == Lookup(b, key, now)
    {
      assert Live(Find(a.entries, key), now) == Live(Find(b.entries, key), now);
    }
  }

  /** Whichever writes failed, a reload brings back every look-up as it was at the
      synchronisation point, or none if it cannot read the file. */
  lemma ReloadRestoresSyncPoint(calls: seq<Call>, reload: Call, key: string, now: int)
    requires Until(calls, reload.now) && reload.op.Reload? && reload.now <= now
    ensures Lookup(After(calls + [reload]), key, now) ==
            if reload.op.readOk then Lookup(After(calls[..SyncPoint(calls)]), key, now) else None
  {
    FileIsSyncPoint(calls, reload.now);
    var c, at := After(calls), After(calls[..SyncPoint(calls)]);
    LoadIsSame(c.file, reload.now);
    assert (calls + [reload])[..|calls|] == calls;
    if reload.op.readOk {
      hide Load, Contents, Live, SyncPoint, Lookup;
      assert After(calls + [reload]).entries == Load(c.file, true, reload.now);
      SameLiveLater(Load(c.file, true, reload.now), at.entries, reload.now, now);
      SameLookup(After(calls + [reload]), at, now);
    }
  }

  /** Hence a reload is harmless exactly when the calls that never reached the file have
      changed no look-up, if it can read the file, and when there was nothing to look up, if it
      cannot; a readable one always when the last call that tried to use the file succeeded. */
  lemma ReloadHarmlessIff(calls: seq<Call>, reload: Call, now: int)
    requires Until(calls, reload.now) && reload.op.Reload? && reload.now <= now
    ensures (forall key :: Lookup(After(calls + [reload]), key, now) == Lookup(After(calls), key, now)) <==>
            if reload.op.readOk then
              forall key :: Lookup(After(calls[..SyncPoint(calls)]), key, now) == Lookup(After(calls), key, now)
            else forall key :: Lookup(After(calls), key, now) == None
    ensures Settled(calls) && reload.op.readOk ==>
              forall key :: Lookup(After(calls + [reload]), key, now) == Lookup(After(calls), key, now)
  {
    hide Lookup, After, SyncPoint, Until, Settled;
    forall key
      ensures Lookup(After(calls + [reload]), key, now) ==
              if reload.op.readOk then Lookup(After(calls[..SyncPoint(calls)]), key, now) else None
    {
      ReloadRestoresSyncPoint(calls, reload, key, now);
    }
    if Settled(calls) {
      SettledIsSynced(calls);
      SameEntriesSameLookup(After(calls[..SyncPoint(calls)]), After(calls), now);
    }
  }

  lemma SameEntriesSameLookup(a: Cache, b: Cache, now: int)
    requires a.entries == b.entries
    ensures forall key :: Lookup(a, key, now) == Lookup(b, key, now)
  {
  }

  /** A call that is not written, or a reload that is not read, made when everything before it
      had reached the file, is undone by a reload: the look-ups are those before the call. */
  lemma UnwrittenCallIsUndone(calls: seq<Call>, call: Call, reload: Call, key: string, now: int)
    requires Until(calls + [call], reload.now) && reload.op == Reload(true) && reload.now <= now
    requires Settled(calls) && if call.op.Reload? then !call.op.readOk else !call.writeOk
    ensures Lookup(After(calls + [call] + [reload]), key, now) == Lookup(After(calls), key, now)
  {
    hide Lookup, After, Settled, Until;
    ReloadRestoresSyncPoint(calls + [call], reload, key, now);
    SyncPointStep(calls, call);
    assert (calls + [call])[..SyncPoint(calls)] == calls[..SyncPoint(calls)];
    SettledIsSynced(calls);
    SameEntriesSameLookup(After(calls[..SyncPoint(calls)]), After(calls), now);
  }

  // ----- Look-ups and sets

  /** Every reload that reads the file finds everything in it. */
  ghost predicate ReloadsSettled(calls: seq<Call>) {
    forall i :: 0 <= i < |calls| && calls[i].op == Reload(true) ==> Settled(calls[..i])
  }

  lemma {:induction false} WrittenIsSettled(calls: seq<Call>)
    requires NothingFails(calls)
    ensures Settled(calls) && ReloadsSettled(calls)
    decreases calls
  {
    if calls != [] {
      var init := calls[..|calls| - 1];
      WrittenIsSettled(init);
      forall i | 0 <= i < |calls| && calls[i].op == Reload(true)
        ensures Settled(calls[..i])
      {
        if i < |init| {
          assert init[i].op == Reload(true);
          assert init[..i] == calls[..i];
        }
      }
    }
  }

  lemma SettledPrefix(calls: seq<Call>, n: nat)
    requires n < |calls| && ReloadsSettled(calls)
    ensures ReloadsSettled(calls[..n]) && (calls[n].op == Reload(true) ==> Settled(calls[..n]))
  {
    hide Settled;
    var init := calls[..n];
    forall i | 0 <= i < n && init[i].op == Reload(true)
      ensures Settled(init[..i])
    {
      assert calls[i].op == Reload(true);
      assert init[..i] == calls[..i];
    }
  }

  lemma {:induction false} HistoryAgrees(calls: seq<Call>, now: int)
    requires Until(calls, now) && ReloadsSettled(calls)
    ensures forall key :: Live(Find(After(calls).entries, key), now) == Live(LastSet(calls, key), now)
    decreases calls
  {
    if calls != [] {
      var n := |calls| - 1;
      var init, call := calls[..n], calls[n];
      SettledPrefix(calls, n);
      hide ReloadsSettled, LastSet, After, Settled, Live;
      HistoryAgrees(init, call.now);
      LastCallAgrees(init, call);
      assert init + [call] == calls;
      forall key
        ensures Live(Find(After(calls).entries, key), now) == Live(LastSet(calls, key), now)
      {
        LiveLater(Find(After(calls).entries, key), LastSet(calls, key), call.now, now);
      }
    }
  }

  lemma LastCallAgrees(init: seq<Call>, call: Call)
    requires Until(init, call.now) && (call.op == Reload(true) ==> Settled(init))
    requires forall key :: Live(Find(After(init).entries, key), call.now) == Live(LastSet(init, key), call.now)
    ensures forall key :: Live(Find(After(init + [call]).entries, key), call.now) == Live(LastSet(init + [call], key), call.now)
  {
    assert (init + [call])[..|init|] == init;
    FileIsSyncPoint(init, call.now);
    var c := After(init);
    if call.op == Reload(true) {
      SettledIsSynced(init);
      LoadIsSame(c.file, call.now);
      hide Load, Contents, SyncPoint, After, Until, Settled;
    } else {
      StepLive(c, call);
      hide SyncPoint, Until, Settled, Keyed, After;
    }
  }

  /** While the clock does not run backwards and every reload that reads the file finds
      everything in it, a look-up returns the result of the last `Set` that nothing has undone,
      if it is still within its time; without reloads that is so whichever writes fail. */
  lemma LookupIsLastSet(calls: seq<Call>, key: string, now: int)
    requires Until(calls, now) && ReloadsSettled(calls)
    ensures Lookup(After(calls), key, now) ==
            match LastSet(calls, key)
            case Some(entry) => if now - entry.timestamp <= entry.ttlMs then Some(entry.result) else None
            case None => None
  {
    HistoryAgrees(calls, now);
    assert Live(Find(After(calls).entries, key), now) == Live(LastSet(calls, key), now);
  }

  lemma {:induction false} ReloadIsNoSet(front: seq<Call>, reload: Call, rest: seq<Call>, key: string)
    requires reload.op == Reload(true)
    ensures LastSet(front + [reload] + rest, key) == LastSet(front + rest, key)
    decreases |rest|
  {
    if rest == [] {
      assert (front + [reload] + rest)[..|front|] == front && front + rest == front;
    } else {
      var n := |rest| - 1;
      ReloadIsNoSet(front, reload, rest[..n], key);
      assert (front + [reload] + rest)[..|front| + 1 + n] == front + [reload] + rest[..n];
      assert (front + rest)[..|front| + n] == front + rest[..n];
    }
  }

  lemma WithoutReload(front: seq<Call>, reload: Call, rest: seq<Call>, now: int)
    requires Until(front + [reload] + rest, now)
    ensures Until(front + rest, now)
    ensures NothingFails(front + [reload] + rest) ==> NothingFails(front + rest)
  {
    var long, short := front + [reload] + rest, front + rest;
    forall i | 0 <= i < |short|
      ensures short[i] == long[if i < |front| then i else i + 1]
    {
    }
    forall i, j | 0 <= i < j < |short|
      ensures short[i].now <= short[j].now
    {
      assert short[i] == long[if i < |front| then i else i + 1] && short[j] == long[if j < |front| then j else j + 1];
    }
  }

  /** Replacing the cache by one loaded from disk changes no later look-up, if that reload and
      all others find everything in the file, with it and without it. */
  lemma ReloadIsTransparent(front: seq<Call>, reload: Call, rest: seq<Call>, key: string, now: int)
    requires reload.op == Reload(true) && Until(front + [reload] + rest, now)
    requires ReloadsSettled(front + [reload] + rest) && ReloadsSettled(front + rest)
    ensures Lookup(After(front + [reload] + rest), key, now) == Lookup(After(front + rest), key, now)
  {
    hide Until, ReloadsSettled, After, Lookup, LastSet;
    WithoutReload(front, reload, rest, now);
    LookupIsLastSet(front + [reload] + rest, key, now);
    LookupIsLastSet(front + rest, key, now);
    ReloadIsNoSet(front, reload, rest, key);
  }

  /** While no use of the file fails, that is so at any point of any history. */
  lemma ReloadChangesNothing(front: seq<Call>, reload: Call, rest: seq<Call>, key: string, now: int)
    requires reload.op == Reload(true)
    requires Until(front + [reload] + rest, now) && NothingFails(front + [reload] + rest)
    ensures Lookup(After(front + [reload] + rest), key, now) == Lookup(After(front + rest), key, now)
  {
    hide Until, ReloadsSettled, After, Lookup, NothingFails;
    WithoutReload(front, reload, rest, now);
    WrittenIsSettled(front + [reload] + rest);
    WrittenIsSettled(front + rest);
    ReloadIsTransparent(front, reload, rest, key, now);
  }

  /** Successful reads matter: a result whose write succeeded is gone after a reload that
      cannot read the file. */
  lemma UnreadReloadForgets(entry: CacheEntry, now: int)
    requires entry.ttlMs >= 0
    ensures var calls := [Call(Set(entry), now, true)];
            && Settled(calls) && Lookup(After(calls), entry.key, now) == Some(entry.result)
            && Lookup(After(calls + [Call(Reload(false), now, true)]), entry.key, now) == None
  {
    var calls := [Call(Set(entry), now, true)];
    assert calls[..0] == [];
    assert After(calls).entries == [Entry(entry.key, entry.(timestamp := now))];
    ReloadRestoresSyncPoint(calls, Call(Reload(false), now, true), entry.key, now);
  }

  /** Successful writes matter: an invalidation that is not written comes back on reload. */
  lemma UnwrittenInvalidationReturns(entry: CacheEntry, now: int)
    requires entry.ttlMs >= 0
    ensures var calls := [Call(Set(entry), now, true), Call(Invalidate(entry.key), now, false), Call(Reload(true), now, true)];
            Lookup(After(calls), entry.key, now) == Some(entry.result) && LastSet(calls, entry.key) == None
  {
    var calls := [Call(Set(entry), now, true), Call(Invalidate(entry.key), now, false), Call(Reload(true), now, true)];
    var stamped := entry.(timestamp := now);
    assert calls[..2][..1] == calls[..1] && calls[..1][..0] == [];
    assert After(calls[..1]) == Cache([Entry(entry.key, stamped)], Saved(Values([Entry(entry.key, stamped)])));
    assert Values([Entry(entry.key, stamped)]) == [stamped];
    assert After(calls[..2]) == Cache([], Saved([stamped]));
    assert [stamped][..0] == [] && LoadEntries([stamped][..0], now) == [];
    assert LoadEntries([stamped], now) == Put([], entry.key, stamped);
    assert Load(Saved([stamped]), true, now) == [Entry(entry.key, stamped)];
  }
}
