/** The coscheduling plugin's bounded cache of pod groups: lookup with insertion, the TTL sweep, and
    emergency eviction by in-place partial selection (pkg/plugins/coscheduling/coscheduling.go).
    Times are nanoseconds; every call reads the clock once and is handed that reading. */
module GroupCache {
  import opened Text
  import opened PodGroups

  const STALE_ENTRY_TTL: int := 600_000_000_000
  const MAX_POD_GROUP_ENTRIES: nat := 50000

  datatype PodGroupInfo = PodGroupInfo(
    name: string, namespace: Namespace, minAvailable: int, timestamp: int, lastUpdateTime: int)

  type Cache = map<string, PodGroupInfo>

  datatype QueuedPod = QueuedPod(
    namespace: Namespace, group: Membership, priority: Option<int>, timestamp: int)

  datatype CacheState = CacheState(infos: Cache, count: int)

  // ---- What one call may do ----

  function PodKey(p: QueuedPod): string
    requires p.group.IsGang()
  {
    GangKey(p.namespace, p.group.name)
  }

  /** The entry a first sighting of the pod's group creates. */
  function FreshInfo(p: QueuedPod, now: int): PodGroupInfo
    requires p.group.IsGang()
  {
    PodGroupInfo(p.group.name, p.namespace, p.group.minAvailable, p.timestamp, now)
  }

  /** The throw-away record of a pod outside any gang; it is never stored. */
  function RegularInfo(p: QueuedPod): PodGroupInfo {
    PodGroupInfo("", p.namespace, 0, p.timestamp, 0)
  }

  /** What a lookup answers: the cached entry if there is one. */
  function InfoFor(infos: Cache, p: QueuedPod, now: int): PodGroupInfo {
    if !p.group.IsGang() then RegularInfo(p)
    else if PodKey(p) in infos then infos[PodKey(p)]
    else FreshInfo(p, now)
  }

  function EvictCount(n: nat): nat {
    if n == 0 then 0 else if n / 5 < 1 then 1 else n / 5
  }

  /** A fifth, rounded down, of a non-empty cache, but at least one entry. */
  lemma EvictCountIsAFifth(n: nat)
    ensures EvictCount(n) <= n && (EvictCount(n) == 0 <==> n == 0)
    ensures n < 5 * (EvictCount(n) + 1)
    ensures EvictCount(n) > 1 ==> 5 * EvictCount(n) <= n
  {
  }

  ghost predicate Shrinks(m: Cache, m': Cache) {
    m'.Keys <= m.Keys && forall k :: k in m' ==> m'[k] == m[k]
  }

  /** Emergency eviction: the right number of entries goes, kept entries are untouched, and no evicted
      entry is newer than a kept one. */
  ghost predicate Evicted(m: Cache, m': Cache) {
    && Shrinks(m, m')
    && |m| - |m'| == EvictCount(|m|)
    && forall gone, kept :: gone in m && gone !in m' && kept in m' ==>
         m[gone].lastUpdateTime <= m'[kept].lastUpdateTime
  }

  ghost predicate LookupStep(s: CacheState, p: QueuedPod, now: int, s': CacheState) {
    if !p.group.IsGang() || PodKey(p) in s.infos then s' == s
    else
      var key := PodKey(p);
      var room := CacheState(s'.infos - {key}, s'.count - 1);
      && key in s'.infos && s'.infos[key] == FreshInfo(p, now)
      && if s.count >= MAX_POD_GROUP_ENTRIES
         then Evicted(s.infos, room.infos) && s.count - room.count == |s.infos| - |room.infos|
         else room == s
  }

  ghost predicate SweepStep(s: CacheState, now: int, s': CacheState) {
    && Swept(s.infos, now, {}, s'.infos)
    && s.count - s'.count == |s.infos| - |s'.infos|
  }

  /** A sweep that has still to visit `pending`: stale visited entries are gone, all others untouched. */
  ghost predicate Swept(m: Cache, now: int, pending: set<string>, m': Cache) {
    && Shrinks(m, m')
    && forall k :: k in m ==> (k in m' <==> k in pending || now - m[k].lastUpdateTime <= STALE_ENTRY_TTL)
  }

  // ---- The plugin object ----

  datatype Entry = Entry(key: string, updateTime: int)

  /** The entries are the cache's items, each key once, in any order. */
  ghost predicate Enumerates(entries: seq<Entry>, m: Cache) {
    && |entries| == |m|
    && (forall i :: 0 <= i < |entries| ==>
          entries[i].key in m && m[entries[i].key].lastUpdateTime == entries[i].updateTime)
    && DistinctKeys(entries)
  }

  /** Deleting the keys of the entries, one after the other. */
  ghost function Without(m: Cache, entries: seq<Entry>): (m': Cache)
    ensures Shrinks(m, m')
  {
    if entries == [] then m
    else Without(m, entries[..|entries| - 1]) - {entries[|entries| - 1].key}
  }

  lemma WithoutNext(m: Cache, entries: seq<Entry>, e: Entry)
    ensures Without(m, entries + [e]) == Without(m, entries) - {e.key}
  {
    assert (entries + [e])[..|entries|] == entries;
  }

  ghost predicate DistinctKeys(entries: seq<Entry>) {
    forall i, j :: 0 <= i < j < |entries| ==> entries[i].key != entries[j].key
  }

  ghost predicate Lists(entries: seq<Entry>, key: string) {
    exists i :: 0 <= i < |entries| && entries[i].key == key
  }

  /** Deleting distinct cached keys removes exactly those, one entry each. */
  lemma {:induction false} WithoutKeys(m: Cache, entries: seq<Entry>)
    requires DistinctKeys(entries)
    requires forall i :: 0 <= i < |entries| ==> entries[i].key in m
    ensures |Without(m, entries)| == |m| - |entries|
    ensures forall k :: k in m ==> (k in Without(m, entries) <==> !Lists(entries, k))
  {
    if entries != [] {
      var front, last := entries[..|entries| - 1], entries[|entries| - 1].key;
      WithoutKeys(m, front);
      assert last in Without(m, front);
      assert Without(m, entries).Keys == Without(m, front).Keys - {last};
      forall k | k in m
        ensures k in Without(m, entries) <==> !Lists(entries, k)
      {
        ListsLast(entries, k);
      }
    }
  }

  lemma ListsLast(entries: seq<Entry>, key: string)
    requires entries != []
    ensures Lists(entries, key) <==> Lists(entries[..|entries| - 1], key) || entries[|entries| - 1].key == key
  {
    var front := entries[..|entries| - 1];
    if Lists(front, key) {
      var i :| 0 <= i < |front| && front[i].key == key;
      assert entries[i].key == key;
    }
    if i :| 0 <= i < |entries| && entries[i].key == key {
      assert i < |front| ==> front[i].key == key;
    }
  }

  /** A snapshot lists every cached key. */
  lemma SnapshotIsComplete(m: Cache, entries: seq<Entry>, key: string)
    requires Enumerates(entries, m) && key in m
    ensures Lists(entries, key)
  {
    WithoutKeys(m, entries);
  }

  /** The first `i` entries are no newer than the rest. */
  ghost predicate OldestFirst(entries: seq<Entry>, i: nat) {
    forall a, b :: 0 <= a < i <= b < |entries| ==> entries[a].updateTime <= entries[b].updateTime
  }

  /** One round of the selection: swapping the oldest remaining entry into place. */
  lemma SelectionRound(m: Cache, s: seq<Entry>, i: nat, j: nat, s': seq<Entry>)
    requires Enumerates(s, m) && OldestFirst(s, i)
    requires i <= j < |s| && s' == s[i := s[j]][j := s[i]]
    requires forall k :: i <= k < |s| ==> s[j].updateTime <= s[k].updateTime
    ensures Enumerates(s', m) && OldestFirst(s', i + 1)
    ensures s'[..i + 1] == s[..i] + [s'[i]]
  {
  }

  class Coscheduling {
    var podGroupInfos: Cache
    var podGroupCount: int

    ghost function State(): CacheState
      reads this
    {
      CacheState(podGroupInfos, podGroupCount)
    }

    constructor ()
      ensures State() == CacheState(map[], 0)
    {
      podGroupInfos, podGroupCount := map[], 0;
    }

    /** `Range` collecting (key, update time) pairs; the order is the map's own. */
    method Snapshot() returns (entries: array<Entry>)
      ensures fresh(entries) && Enumerates(entries[..], podGroupInfos)
    {
      var keys := podGroupInfos.Keys;
      var collected: seq<Entry> := [];
      while keys != {}
        invariant keys <= podGroupInfos.Keys && |collected| + |keys| == |podGroupInfos|
        invariant forall i :: 0 <= i < |collected| ==>
                    && collected[i].key in podGroupInfos && collected[i].key !in keys
                    && podGroupInfos[collected[i].key].lastUpdateTime == collected[i].updateTime
        invariant forall i, j :: 0 <= i < j < |collected| ==> collected[i].key != collected[j].key
        decreases |keys|
      {
        var k :| k in keys;
        collected := collected + [Entry(k, podGroupInfos[k].lastUpdateTime)];
        keys := keys - {k};
      }
      entries := new Entry[|collected|](i requires 0 <= i < |collected| => collected[i]);
      assert entries[..] == collected;
    }

    /** The inner loop of the selection: the first entry from `i` on with the least update time. */
    static method OldestFrom(entries: array<Entry>, i: nat) returns (oldest: nat)
      requires i < entries.Length
      ensures i <= oldest < entries.Length
      ensures forall j :: i <= j < entries.Length ==> entries[oldest].updateTime <= entries[j].updateTime
    {
      oldest := i;
      for j := i + 1 to entries.Length
        invariant i <= oldest < entries.Length
        invariant forall k :: i <= k < j ==> entries[oldest].updateTime <= entries[k].updateTime
      {
        if entries[j].updateTime < entries[oldest].updateTime { oldest := j; }
      }
    }

    /** One round of the in-place selection: the oldest of the remaining entries moves to place `i`. */
    static method SelectOldest(entries: array<Entry>, i: nat, ghost m: Cache)
      requires i < entries.Length && Enumerates(entries[..], m) && OldestFirst(entries[..], i)
      modifies entries
      ensures Enumerates(entries[..], m) && OldestFirst(entries[..], i + 1)
      ensures entries[..i + 1] == old(entries[..i]) + [entries[i]]
    {
      var oldest := OldestFrom(entries, i);
      ghost var before := entries[..];
      entries[i], entries[oldest] := entries[oldest], entries[i];
      SelectionRound(m, before, i, oldest, entries[..]);
    }

    method EvictOldestEntries()
      modifies this
      ensures Evicted(old(podGroupInfos), podGroupInfos)
      ensures old(podGroupCount) - podGroupCount == |old(podGroupInfos)| - |podGroupInfos|
    {
      ghost var m := podGroupInfos;
      var entries := Snapshot();
      var evictCount := entries.Length / 5;
      if evictCount < 1 { evictCount := 1; }
      var i := 0;
      while i < evictCount && i < entries.Length
        invariant 0 <= i <= entries.Length && i <= evictCount
        invariant Enumerates(entries[..], m) && OldestFirst(entries[..], i)
        invariant podGroupInfos == Without(m, entries[..i])
        invariant podGroupCount == old(podGroupCount) - i
        decreases entries.Length - i
      {
        ghost var evicted := entries[..i];
        SelectOldest(entries, i, m);
        WithoutNext(m, evicted, entries[i]);
        podGroupInfos := podGroupInfos - {entries[i].key};
        podGroupCount := podGroupCount - 1;
        i := i + 1;
      }
      EvictionComplete(m, entries[..], i);
    }

    /** Looks a queued pod's group up, inserting it on first sight and evicting when the counter is at the cap. */
    method GetPodGroupInfoFromQueued(p: QueuedPod, now: int) returns (info: PodGroupInfo)
      modifies this
      ensures LookupStep(old(State()), p, now, State())
      ensures info == InfoFor(old(podGroupInfos), p, now)
    {
      var m := p.group;
      if m.IsGang() {
        var key := GangKey(p.namespace, m.name);
        if key in podGroupInfos {
          info := podGroupInfos[key];
        } else {
          if podGroupCount >= MAX_POD_GROUP_ENTRIES { EvictOldestEntries(); }
          info := PodGroupInfo(m.name, p.namespace, m.minAvailable, p.timestamp, now);
          ghost var room := podGroupInfos;
          podGroupInfos := podGroupInfos[key := info];
          podGroupCount := podGroupCount + 1;
          assert podGroupInfos - {key} == room;
        }
      } else {
        info := PodGroupInfo("", p.namespace, 0, p.timestamp, 0);
      }
    }

    /** One tick of the cleanup goroutine. */
    method CleanupStaleEntries(now: int)
      modifies this
      ensures SweepStep(old(State()), now, State())
    {
      ghost var m := podGroupInfos;
      var pending := podGroupInfos.Keys;
      while pending != {}
        invariant pending <= m.Keys && Swept(m, now, pending, podGroupInfos)
        invariant old(podGroupCount) - podGroupCount == |m| - |podGroupInfos|
        decreases |pending|
      {
        var k :| k in pending;
        if now - podGroupInfos[k].lastUpdateTime > STALE_ENTRY_TTL {
          assert (podGroupInfos - {k}).Keys == podGroupInfos.Keys - {k};
          podGroupInfos := podGroupInfos - {k};
          podGroupCount := podGroupCount - 1;
        }
        pending := pending - {k};
      }
    }
  }

  /** Removing the first `i` entries of a snapshot whose first `i` are the oldest is an eviction. */
  lemma EvictionComplete(m: Cache, entries: seq<Entry>, i: nat)
    requires Enumerates(entries, m) && i == EvictCount(|m|) && OldestFirst(entries, i)
    ensures Evicted(m, Without(m, entries[..i]))
    ensures |Without(m, entries[..i])| == |m| - i
  {
    var m' := Without(m, entries[..i]);
    WithoutKeys(m, entries[..i]);
    forall gone, kept | gone in m && gone !in m' && kept in m'
      ensures m[gone].lastUpdateTime <= m'[kept].lastUpdateTime
    {
      SnapshotIsComplete(m, entries, kept);
      OlderThanKept(m, entries, i, gone, kept);
    }
  }

  lemma OlderThanKept(m: Cache, entries: seq<Entry>, i: nat, gone: string, kept: string)
    requires Enumerates(entries, m) && i <= |entries| && OldestFirst(entries, i)
    requires Lists(entries[..i], gone)
    requires Lists(entries, kept) && !Lists(entries[..i], kept)
    ensures gone in m && kept in m && m[gone].lastUpdateTime <= m[kept].lastUpdateTime
  {
  }

  // ---- Whole runs ----

  datatype Event = LookUp(pod: QueuedPod, at: int) | Sweep(at: int)

  ghost predicate Step(s: CacheState, e: Event, s': CacheState) {
    match e
    case LookUp(p, now) => LookupStep(s, p, now, s')
    case Sweep(now) => SweepStep(s, now, s')
  }

  /** A run from the empty cache: any events, in any order, at any clock readings. */
  ghost predicate IsRun(states: seq<CacheState>, events: seq<Event>) {
    && |states| == |events| + 1
    && states[0] == CacheState(map[], 0)
    && forall i :: 0 <= i < |events| ==> Step(states[i], events[i], states[i + 1])
  }

  /** Each entry sits under its own gang's key. */
  ghost predicate WellKeyed(infos: Cache) {
    forall k :: k in infos ==> k == GangKey(infos[k].namespace, infos[k].name) && infos[k].minAvailable > 1
  }

  /** Counter and map agree, and the cap holds. */
  ghost predicate Inv(s: CacheState) {
    s.count == |s.infos| <= MAX_POD_GROUP_ENTRIES && WellKeyed(s.infos)
  }

  lemma StepKeepsInv(s: CacheState, e: Event, s': CacheState)
    requires Inv(s) && Step(s, e, s')
    ensures Inv(s')
  {
    match e
    case Sweep(now) => SubmapCount(s.infos, s'.infos);
    case LookUp(p, now) =>
      if p.group.IsGang() && PodKey(p) !in s.infos {
        var room := s'.infos - {PodKey(p)};
        assert s'.infos.Keys == room.Keys + {PodKey(p)};
        assert |s'.infos| == |room| + 1;
        assert forall k :: k in room ==> room[k] == s'.infos[k];
      }
  }

  lemma StepKeepsEntry(s: CacheState, e: Event, s': CacheState, key: string)
    requires Step(s, e, s') && key in s.infos && key in s'.infos
    ensures s'.infos[key] == s.infos[key]
  {
  }

  lemma SubmapCount(m: Cache, m': Cache)
    requires m'.Keys <= m.Keys
    ensures |m'| <= |m|
  {
    assert m.Keys == m'.Keys + (m.Keys - m'.Keys);
  }

  /** In every reachable state the counter is the number of cached groups and respects the cap. */
  lemma {:induction false} CounterIsSizeInEveryRun(states: seq<CacheState>, events: seq<Event>, i: nat)
    requires IsRun(states, events) && i < |states|
    ensures Inv(states[i]) && states[i].count == |states[i].infos| <= 50000
  {
    if i > 0 {
      CounterIsSizeInEveryRun(states, events, i - 1);
      StepKeepsInv(states[i - 1], events[i - 1], states[i]);
    }
  }

  /** While a group's entry lives, nothing in it changes, its submission timestamp in particular. */
  lemma {:induction false} EntryNeverChangesWhileCached(
      states: seq<CacheState>, events: seq<Event>, key: string, i: nat, j: nat)
    requires IsRun(states, events) && i <= j < |states|
    requires forall n :: i <= n <= j ==> key in states[n].infos
    ensures states[j].infos[key] == states[i].infos[key]
    decreases j
  {
    if i < j {
      EntryNeverChangesWhileCached(states, events, key, i, j - 1);
      StepKeepsEntry(states[j - 1], events[j - 1], states[j], key);
    }
  }

  /** A key newly in the cache was put there by a lookup of a pod of that gang, as a fresh record. */
  lemma OnlyLookupsInsert(s: CacheState, e: Event, s': CacheState, key: string)
    requires Step(s, e, s') && key !in s.infos && key in s'.infos
    ensures e.LookUp? && e.pod.group.IsGang() && PodKey(e.pod) == key && s'.infos[key] == FreshInfo(e.pod, e.at)
  {
  }

  /** A cached record is the fresh record of one lookup, kept as it was through everything since. */
  lemma {:induction false} CachedSinceInsertion(states: seq<CacheState>, events: seq<Event>, i: nat, key: string)
    returns (j: nat)
    requires IsRun(states, events) && i < |states| && key in states[i].infos
    ensures j < i && events[j].LookUp? && events[j].pod.group.IsGang() && PodKey(events[j].pod) == key
    ensures key !in states[j].infos && forall n :: j < n <= i ==> key in states[n].infos
    ensures states[i].infos[key] == FreshInfo(events[j].pod, events[j].at)
    ensures var info, pod := states[i].infos[key], events[j].pod;
            && info.name == pod.group.name && info.namespace == pod.namespace
            && info.minAvailable == pod.group.minAvailable && info.timestamp == pod.timestamp
            && info.lastUpdateTime == events[j].at
  {
    assert Step(states[i - 1], events[i - 1], states[i]);
    if key in states[i - 1].infos {
      j := CachedSinceInsertion(states, events, i - 1, key);
      StepKeepsEntry(states[i - 1], events[i - 1], states[i], key);
    } else {
      j := i - 1;
      OnlyLookupsInsert(states[j], events[j], states[i], key);
    }
  }

  /** A sweep counts from insertion: a cached group survives it exactly when the lookup that inserted it
      lies within the TTL, however many lookups of the group came in between. */
  lemma SweepKeepsOnlyRecent(states: seq<CacheState>, events: seq<Event>, i: nat, key: string) returns (j: nat)
    requires IsRun(states, events) && i < |events| && events[i].Sweep? && key in states[i].infos
    ensures j < i && events[j].LookUp? && events[j].pod.group.IsGang() && PodKey(events[j].pod) == key
    ensures key !in states[j].infos && forall n :: j < n <= i ==> key in states[n].infos
    ensures key in states[i + 1].infos <==> events[i].at - events[j].at <= 600_000_000_000
  {
    j := CachedSinceInsertion(states, events, i, key);
    assert Step(states[i], events[i], states[i + 1]);
  }
}
