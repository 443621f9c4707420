/** The three-tier memory store with lazy expiry. */
module SemanticMemory {
  import opened Sequences
  import opened OrderedMaps
  import opened Utf8

  datatype Tier = RunTier | ProjectTier | OrgTier

  const DAY_MS := 86400000

  /** Retention in milliseconds; zero means that entries never expire. */
  function Retention(tier: Tier): int {
    match tier
    case RunTier => 0
    case ProjectTier => 30 * DAY_MS
    case OrgTier => 90 * DAY_MS
  }

  datatype MemoryEntry = MemoryEntry(
    key: string,
    content: Text,
    writtenAt: int,
    lastAccessedAt: int,
    accessCount: nat,
    topic: string)

  type Collection = OrderedMap<string, MemoryEntry>

  datatype Store = Store(run: Collection, project: Collection, org: Collection)

  function Col(s: Store, tier: Tier): Collection {
    match tier
    case RunTier => s.run
    case ProjectTier => s.project
    case OrgTier => s.org
  }

  function WithCol(s: Store, tier: Tier, c: Collection): (r: Store)
    ensures forall t :: Col(r, t) == if t == tier then c else Col(s, t)
  {
    match tier
    case RunTier => s.(run := c)
    case ProjectTier => s.(project := c)
    case OrgTier => s.(org := c)
  }

  predicate Expired(tier: Tier, entry: MemoryEntry, now: int) {
    Retention(tier) != 0 && now - entry.writtenAt > Retention(tier)
  }

  function Live(tier: Tier, found: Option<MemoryEntry>, now: int): Option<MemoryEntry> {
    if found.Some? && !Expired(tier, found.value, now) then found else None
  }

  function Get(s: Store, tier: Tier, key: string): Option<MemoryEntry> {
    Find(Col(s, tier), key)
  }

  // ----- The operations as functions

  function SetEntry(s: Store, tier: Tier, entry: MemoryEntry): Store {
    WithCol(s, tier, Put(Col(s, tier), entry.key, entry))
  }

  function Delete(s: Store, tier: Tier, key: string): Store {
    WithCol(s, tier, Remove(Col(s, tier), key))
  }

  function Write(s: Store, tier: Tier, key: string, content: Text, topic: string, now: int): Store {
    SetEntry(s, tier, MemoryEntry(key, content, now, now, 0, topic))
  }

  function Touched(entry: MemoryEntry, now: int): MemoryEntry {
    entry.(lastAccessedAt := now, accessCount := entry.accessCount + 1)
  }

  function ReadResult(s: Store, tier: Tier, key: string, now: int): Option<MemoryEntry> {
    var live := Live(tier, Get(s, tier, key), now);
    if live.Some? then Some(Touched(live.value, now)) else None
  }

  function AfterRead(s: Store, tier: Tier, key: string, now: int): Store {
    var found := Get(s, tier, key);
    if found.None? then s
    else if Expired(tier, found.value, now) then Delete(s, tier, key)
    else SetEntry(s, tier, Touched(found.value, now))
  }

  /** The collection without its expired entries. */
  function Swept(tier: Tier, c: Collection, now: int): Collection {
    if c == [] then []
    else if Expired(tier, c[0].value, now) then Swept(tier, c[1..], now)
    else [c[0]] + Swept(tier, c[1..], now)
  }

  function AfterEvict(s: Store, tier: Tier, now: int): Store {
    WithCol(s, tier, Swept(tier, Col(s, tier), now))
  }

  function AfterSweep(s: Store, now: int): Store {
    AfterEvict(AfterEvict(s, ProjectTier, now), OrgTier, now)
  }

  function ByKey(keyLeq: (string, string) -> bool): (MemoryEntry, MemoryEntry) -> bool {
    (a: MemoryEntry, b: MemoryEntry) => keyLeq(a.key, b.key)
  }

  function ListResult(s: Store, tier: Tier, now: int, keyLeq: (string, string) -> bool): seq<MemoryEntry> {
    StableSort(Values(Swept(tier, Col(s, tier), now)), ByKey(keyLeq))
  }

  /** How long an entry can be read after it was written: always in the run tier, thirty days in
      the project tier, ninety in the org tier. Reading it again does not prolong that; it counts
      the access and leaves the rest as it was. */
  lemma ReadableFor(s: Store, tier: Tier, key: string, now: int)
    ensures var found, read := Get(s, tier, key), ReadResult(s, tier, key, now);
            match found
            case None => read == None
            case Some(e) =>
              if (tier == ProjectTier && now - e.writtenAt > 2592000000) || (tier == OrgTier && now - e.writtenAt > 7776000000) then
                read == None
              else
                read == Some(MemoryEntry(e.key, e.content, e.writtenAt, now, e.accessCount + 1, e.topic))
  {
  }

  // ----- Well-formed stores

  ghost predicate Keyed(c: Collection) {
    DistinctKeys(c) && forall i :: 0 <= i < |c| ==> c[i].value.key == c[i].key
  }

  ghost predicate Valid(s: Store) {
    Keyed(s.run) && Keyed(s.project) && Keyed(s.org)
  }

  lemma PutKeyed(c: Collection, entry: MemoryEntry)
    requires Keyed(c)
    ensures Keyed(Put(c, entry.key, entry))
  {
    PutKeys(c, entry.key, entry);
    var r := Put(c, entry.key, entry);
    forall i | 0 <= i < |r|
      ensures r[i].value.key == r[i].key
    {
      assert r[i] in r;
    }
  }

  lemma RemoveKeyed(c: Collection, key: string)
    requires Keyed(c)
    ensures Keyed(Remove(c, key))
  {
    RemoveKeys(c, key);
    var r := Remove(c, key);
    forall i | 0 <= i < |r|
      ensures r[i].value.key == r[i].key
    {
      assert r[i] in r;
    }
  }

  lemma {:induction false} SweptKeyed(tier: Tier, c: Collection, now: int)
    requires Keyed(c)
    ensures Keyed(Swept(tier, c, now))
    ensures forall e :: e in Swept(tier, c, now) ==> e in c
    ensures forall key :: Find(Swept(tier, c, now), key) == Live(tier, Find(c, key), now)
  {
    if c != [] {
      var r := Swept(tier, c[1..], now);
      SweptKeyed(tier, c[1..], now);
      FindNone(c[1..], c[0].key);
      forall j | 0 <= j < |r|
        ensures r[j].key != c[0].key
      {
        assert r[j] in r;
        assert r[j] in c[1..];
      }
    }
  }

  /** What `get` finds after `set` and after `delete`. */
  lemma GetAfterSet(s: Store, tier: Tier, entry: MemoryEntry, t: Tier, key: string)
    ensures Get(SetEntry(s, tier, entry), t, key) ==
            if t == tier && key == entry.key then Some(entry) else Get(s, t, key)
  {
    FindPut(Col(s, tier), entry.key, entry, key);
  }

  lemma GetAfterDelete(s: Store, tier: Tier, k: string, t: Tier, key: string)
    requires Valid(s)
    ensures Get(Delete(s, tier, k), t, key) == if t == tier && key == k then None else Get(s, t, key)
  {
    FindRemove(Col(s, tier), k, key);
  }

  lemma SetKeepsValid(s: Store, tier: Tier, entry: MemoryEntry)
    requires Valid(s)
    ensures Valid(SetEntry(s, tier, entry))
  {
    PutKeyed(Col(s, tier), entry);
  }

  lemma DeleteKeepsValid(s: Store, tier: Tier, key: string)
    requires Valid(s)
    ensures Valid(Delete(s, tier, key))
  {
    RemoveKeyed(Col(s, tier), key);
  }

  lemma EvictKeepsValid(s: Store, tier: Tier, now: int)
    requires Valid(s)
    ensures Valid(AfterEvict(s, tier, now))
  {
    SweptKeyed(tier, Col(s, tier), now);
  }

  // ----- What list returns

  /** `list` returns every unexpired entry exactly once, in key order. */
  lemma ListIsUnexpiredInKeyOrder(s: Store, tier: Tier, now: int, keyLeq: (string, string) -> bool)
    requires Valid(s) && KeyOrder(keyLeq)
    ensures var listed := ListResult(s, tier, now, keyLeq);
            && (forall e :: e in listed <==> Get(s, tier, e.key) == Some(e) && !Expired(tier, e, now))
            && (forall i, j :: 0 <= i < j < |listed| ==> keyLeq(listed[i].key, listed[j].key))
            && Distinct(listed)
  {
    var c := Swept(tier, Col(s, tier), now);
    var listed := ListResult(s, tier, now, keyLeq);
    SweptKeyed(tier, Col(s, tier), now);
    SortPermutes(Values(c), ByKey(keyLeq));
    ByKeyIsPreorder(keyLeq);
    SortSorted(Values(c), ByKey(keyLeq));
    forall e
      ensures e in listed <==> Get(s, tier, e.key) == Some(e) && !Expired(tier, e, now)
    {
      ValuesMember(c, e);
    }
    assert forall i, j :: 0 <= i < j < |listed| ==> ByKey(keyLeq)(listed[i], listed[j]);
    ValuesDistinct(c);
    SortedDistinct(Values(c), ByKey(keyLeq));
  }

  lemma ByKeyIsPreorder(keyLeq: (string, string) -> bool)
    requires KeyOrder(keyLeq)
    ensures TotalPreorder(ByKey(keyLeq))
  {
    var leq := ByKey(keyLeq);
    forall a, b
      ensures leq(a, b) || leq(b, a)
    {
      assert keyLeq(a.key, b.key) || keyLeq(b.key, a.key);
    }
    forall a, b, c | leq(a, b) && leq(b, c)
      ensures leq(a, c)
    {
      assert keyLeq(a.key, b.key) && keyLeq(b.key, c.key) ==> keyLeq(a.key, c.key);
    }
  }

  lemma ValuesMember(c: Collection, e: MemoryEntry)
    requires Keyed(c)
    ensures e in Values(c) <==> Find(c, e.key) == Some(e)
  {
    FindIsEntry(c, e.key, e);
    if e in Values(c) {
      var i :| 0 <= i < |c| && Values(c)[i] == e;
      assert c[i] == Entry(e.key, e);
    }
    if Entry(e.key, e) in c {
      var i :| 0 <= i < |c| && c[i] == Entry(e.key, e);
      assert Values(c)[i] == e;
    }
  }

  lemma ValuesDistinct(c: Collection)
    requires Keyed(c)
    ensures Distinct(Values(c))
  {
    var vs := Values(c);
    forall i, j | 0 <= i < j < |vs|
      ensures vs[i] != vs[j]
    {
      assert c[i].key != c[j].key;
    }
  }

  lemma SortedDistinct(s: seq<MemoryEntry>, leq: (MemoryEntry, MemoryEntry) -> bool)
    requires Distinct(s)
    ensures Distinct(StableSort(s, leq))
  {
    var r := StableSort(s, leq);
    SortPermutes(s, leq);
    forall i, j | 0 <= i < j < |r|
      ensures r[i] != r[j]
    {
      if r[i] == r[j] {
        TwicePresent(r, i, j);
        DistinctMultiset(s, r[i]);
      }
    }
  }

  lemma TwicePresent<T>(r: seq<T>, i: nat, j: nat)
    requires i < j < |r| && r[i] == r[j]
    ensures multiset(r)[r[i]] >= 2
  {
    assert r == r[..i] + [r[i]] + r[i + 1..j] + [r[j]] + r[j + 1..];
    assert multiset(r) == multiset(r[..i]) + multiset{r[i]} + multiset(r[i + 1..j]) + multiset{r[j]} + multiset(r[j + 1..]);
  }

  // ----- The store as objects

  class InMemoryStorage {
    var tiers: Store

    constructor ()
      ensures tiers == Store([], [], [])
    {
      tiers := Store([], [], []);
    }

    method Set(tier: Tier, entry: MemoryEntry)
      modifies this
      ensures tiers == SetEntry(old(tiers), tier, entry)
    {
      tiers := WithCol(tiers, tier, Put(Col(tiers, tier), entry.key, entry));
    }

    method Fetch(tier: Tier, key: string) returns (found: Option<MemoryEntry>)
      ensures found == Get(tiers, tier, key)
    {
      found := Find(Col(tiers, tier), key);
    }

    method All(tier: Tier) returns (entries: seq<MemoryEntry>)
      ensures entries == Values(Col(tiers, tier))
    {
      entries := Values(Col(tiers, tier));
    }

    method Drop(tier: Tier, key: string)
      modifies this
      ensures tiers == Delete(old(tiers), tier, key)
    {
      tiers := WithCol(tiers, tier, Remove(Col(tiers, tier), key));
    }
  }

  lemma {:induction false} RemoveNext(kept: Collection, e: Entry<string, MemoryEntry>, rest: Collection)
    requires DistinctKeys(kept + [e] + rest)
    ensures Remove(kept + [e] + rest, e.key) == kept + rest
  {
    var all := kept + [e] + rest;
    if kept == [] {
      assert all[1..] == rest && kept + rest == rest;
    } else {
      assert all[0].key != all[|kept|].key;
      assert all[1..] == kept[1..] + [e] + rest;
      RemoveNext(kept[1..], e, rest);
      assert kept + rest == [kept[0]] + (kept[1..] + rest);
    }
  }

  /** The collection once the first `i` of its entries have been looked at. */
  function SweepPrefix(tier: Tier, c: Collection, i: nat, now: int): Collection
    requires i <= |c|
  {
    Swept(tier, c[..i], now) + c[i..]
  }

  function LivePrefix(tier: Tier, c: Collection, i: nat, now: int): seq<MemoryEntry>
    requires i <= |c|
  {
    Values(Swept(tier, c[..i], now))
  }

  lemma {:induction false} SweptAppend(tier: Tier, a: Collection, b: Collection, now: int)
    ensures Swept(tier, a + b, now) == Swept(tier, a, now) + Swept(tier, b, now)
  {
    if a == [] {
      assert a + b == b;
    } else {
      assert (a + b)[1..] == a[1..] + b;
      SweptAppend(tier, a[1..], b, now);
    }
  }

  lemma SweptSnoc(tier: Tier, c: Collection, i: nat, now: int)
    requires i < |c|
    ensures Swept(tier, c[..i + 1], now) ==
            Swept(tier, c[..i], now) + if Expired(tier, c[i].value, now) then [] else [c[i]]
  {
    SweptAppend(tier, c[..i], [c[i]], now);
    assert c[..i + 1] == c[..i] + [c[i]];
  }

  lemma PrefixKeysDistinct(tier: Tier, c: Collection, i: nat, now: int)
    requires Keyed(c) && i <= |c|
    ensures DistinctKeys(SweepPrefix(tier, c, i, now))
  {
    var front := Swept(tier, c[..i], now);
    SweptKeyed(tier, c[..i], now);
    forall j, k | 0 <= j < |front| && i <= k < |c|
      ensures front[j].key != c[k].key
    {
      assert front[j] in front;
      assert front[j] in c[..i];
    }
  }

  lemma SweepNext(tier: Tier, c: Collection, i: nat, now: int)
    requires Keyed(c) && i < |c|
    ensures if Expired(tier, c[i].value, now) then
              && SweepPrefix(tier, c, i + 1, now) == Remove(SweepPrefix(tier, c, i, now), c[i].key)
              && LivePrefix(tier, c, i + 1, now) == LivePrefix(tier, c, i, now)
            else
              && SweepPrefix(tier, c, i + 1, now) == SweepPrefix(tier, c, i, now)
              && LivePrefix(tier, c, i + 1, now) == LivePrefix(tier, c, i, now) + [c[i].value]
  {
    hide Remove;
    var front := Swept(tier, c[..i], now);
    SweptSnoc(tier, c, i, now);
    PrefixKeysDistinct(tier, c, i, now);
    assert front + [c[i]] + c[i + 1..] == SweepPrefix(tier, c, i, now);
    if Expired(tier, c[i].value, now) {
      RemoveNext(front, c[i], c[i + 1..]);
    }
  }

  lemma SweepEnds(tier: Tier, c: Collection, now: int)
    ensures SweepPrefix(tier, c, 0, now) == c && LivePrefix(tier, c, 0, now) == []
    ensures SweepPrefix(tier, c, |c|, now) == Swept(tier, c, now)
    ensures LivePrefix(tier, c, |c|, now) == Values(Swept(tier, c, now))
    ensures |LivePrefix(tier, c, |c|, now)| == |Swept(tier, c, now)|
  {
    assert c[..|c|] == c;
  }

  class SemanticMemoryStore {
    const storage: InMemoryStorage
    const keyLeq: (string, string) -> bool

    constructor (storage: InMemoryStorage, keyLeq: (string, string) -> bool)
      ensures this.storage == storage && this.keyLeq == keyLeq
    {
      this.storage, this.keyLeq := storage, keyLeq;
    }

    method WriteEntry(tier: Tier, key: string, content: Text, topic: string, now: int)
      modifies storage
      ensures storage.tiers == Write(old(storage.tiers), tier, key, content, topic, now)
    {
      storage.Set(tier, MemoryEntry(key, content, now, now, 0, topic));
    }

    method Read(tier: Tier, key: string, now: int) returns (entry: Option<MemoryEntry>)
      requires Valid(storage.tiers)
      modifies storage
      ensures entry == ReadResult(old(storage.tiers), tier, key, now)
      ensures storage.tiers == AfterRead(old(storage.tiers), tier, key, now)
      ensures Valid(storage.tiers)
    {
      var found := storage.Fetch(tier, key);
      if found.None? {
        return None;
      }
      if Expired(tier, found.value, now) {
        storage.Drop(tier, key);
        DeleteKeepsValid(old(storage.tiers), tier, key);
        return None;
      }
      FindKeyed(Col(storage.tiers, tier), key);
      storage.Set(tier, Touched(found.value, now));
      SetKeepsValid(old(storage.tiers), tier, Touched(found.value, now));
      entry := Some(Touched(found.value, now));
    }

    /** The loop that `list` and `evict` share: drop what has expired, collect the rest. */
    method DropExpired(tier: Tier, now: int) returns (live: seq<MemoryEntry>, count: nat)
      requires Valid(storage.tiers)
      modifies storage
      ensures storage.tiers == AfterEvict(old(storage.tiers), tier, now)
      ensures live == Values(Col(storage.tiers, tier))
      ensures count == |Col(old(storage.tiers), tier)| - |Col(storage.tiers, tier)|
    {
      hide Swept, SweepPrefix, LivePrefix, Remove, Values;
      var all := storage.All(tier);
      ghost var c := Col(storage.tiers, tier);
      SweepEnds(tier, c, now);
      live, count := [], 0;
      for i := 0 to |all|
        invariant storage.tiers == WithCol(old(storage.tiers), tier, SweepPrefix(tier, c, i, now))
        invariant live == LivePrefix(tier, c, i, now)
        invariant count + |live| == i
      {
        SweepNext(tier, c, i, now);
        if Expired(tier, all[i], now) {
          storage.Drop(tier, all[i].key);
          count := count + 1;
        } else {
          live := live + [all[i]];
        }
      }
    }

    method List(tier: Tier, now: int) returns (entries: seq<MemoryEntry>)
      requires Valid(storage.tiers)
      modifies storage
      ensures entries == ListResult(old(storage.tiers), tier, now, keyLeq)
      ensures storage.tiers == AfterEvict(old(storage.tiers), tier, now)
      ensures Valid(storage.tiers)
    {
      var live, _ := DropExpired(tier, now);
      EvictKeepsValid(old(storage.tiers), tier, now);
      entries := StableSort(live, ByKey(keyLeq));
    }

    method Evict(tier: Tier, now: int) returns (count: nat)
      requires Valid(storage.tiers)
      modifies storage
      ensures storage.tiers == AfterEvict(old(storage.tiers), tier, now)
      ensures count == |Col(old(storage.tiers), tier)| - |Col(storage.tiers, tier)|
      ensures Valid(storage.tiers)
    {
      var _, dropped := DropExpired(tier, now);
      EvictKeepsValid(old(storage.tiers), tier, now);
      count := dropped;
    }

    method Clear(tier: Tier)
      requires Valid(storage.tiers)
      modifies storage
      ensures storage.tiers == WithCol(old(storage.tiers), tier, [])
    {
      var all := storage.All(tier);
      ghost var c := Col(storage.tiers, tier);
      for i := 0 to |all|
        invariant storage.tiers == WithCol(old(storage.tiers), tier, c[i..])
      {
        assert c[i..][0] == c[i] && c[i..][1..] == c[i + 1..];
        storage.Drop(tier, all[i].key);
      }
    }

    method SweepExpired(now: int) returns (project: nat, org: nat)
      requires Valid(storage.tiers)
      modifies storage
      ensures storage.tiers == AfterSweep(old(storage.tiers), now)
      ensures project == |old(storage.tiers).project| - |storage.tiers.project|
      ensures org == |old(storage.tiers).org| - |storage.tiers.org|
      ensures Valid(storage.tiers)
    {
      project := Evict(ProjectTier, now);
      org := Evict(OrgTier, now);
    }
  }

  lemma FindKeyed(c: Collection, key: string)
    requires Keyed(c)
    ensures Find(c, key).Some? ==> Find(c, key).value.key == key
  {
    if Find(c, key).Some? {
      FindIsEntry(c, key, Find(c, key).value);
    }
  }
}
