/** The same cache with the queue thread and the cleanup goroutine interleaved at the granularity of
    single map operations and single counter operations (pkg/plugins/coscheduling/coscheduling.go).
    Entries are reduced to their update time. `misses` is a history variable: it counts deletes that
    found their key already gone, each of which still decrements the counter. */
module CacheInterleaving {
  import opened Text
  import opened PodGroups
  import opened GroupCache

  type Entries = map<string, int>

  /** Where the queue thread stands inside one lookup. */
  datatype QueueThread =
    | Resting
    | Missed(key: string)
    | Collecting(key: string, todo: set<string>, seen: Entries)
    | Evicting(key: string, victims: seq<string>, next: nat)
    | Uncounting(key: string, victims: seq<string>, next: nat)
    | Storing(key: string)
    | Counting(key: string)

  /** Where the cleanup goroutine stands inside one sweep. */
  datatype SweepThread =
    | Idle
    | Visiting(now: int, todo: set<string>)
    | Condemned(now: int, todo: set<string>, key: string)
    | Deleted(now: int, todo: set<string>)

  datatype State = State(entries: Entries, count: int, queue: QueueThread, sweep: SweepThread, misses: nat)

  const INITIAL := State(map[], 0, Resting, Idle, 0)

  function Delete(s: State, key: string): State {
    s.(entries := s.entries - {key}, misses := s.misses + if key in s.entries then 0 else 1)
  }

  /** The keys an eviction deletes: distinct, as many as the code takes, and the oldest of those seen. */
  ghost predicate Chosen(seen: Entries, victims: seq<string>) {
    && |victims| == EvictCount(|seen|)
    && (forall i :: 0 <= i < |victims| ==> victims[i] in seen)
    && (forall i, j :: 0 <= i < j < |victims| ==> victims[i] != victims[j])
    && forall i, k :: 0 <= i < |victims| && k in seen && k !in victims ==> seen[victims[i]] <= seen[k]
  }

  datatype Action =
    | LoadMiss(key: string) | CheckCap | Collect(key: string) | Choose(victims: seq<string>)
    | EvictDelete | EvictDecrement | LoadOrStore(now: int) | Increment
    | Tick(now: int) | Visit(key: string) | SweepDelete | SweepDecrement | SweepEnd

  ghost predicate Enabled(s: State, a: Action) {
    match a
    case LoadMiss(key) => s.queue.Resting? && key !in s.entries
    case CheckCap => s.queue.Missed?
    case Collect(key) => s.queue.Collecting? && key in s.queue.todo
    case Choose(victims) => s.queue.Collecting? && s.queue.todo == {} && Chosen(s.queue.seen, victims)
    case EvictDelete => s.queue.Evicting? && s.queue.next < |s.queue.victims|
    case EvictDecrement => s.queue.Uncounting?
    case LoadOrStore(_) => s.queue.Storing?
    case Increment => s.queue.Counting?
    case Tick(_) => s.sweep.Idle?
    // Range may also show keys stored after it started.
    case Visit(key) => s.sweep.Visiting? && (key in s.sweep.todo || key in s.entries)
    case SweepDelete => s.sweep.Condemned?
    case SweepDecrement => s.sweep.Deleted?
    case SweepEnd => s.sweep.Visiting? && s.sweep.todo == {}
  }

  function Do(s: State, a: Action): State
    requires Enabled(s, a)
  {
    match a
    case LoadMiss(key) => s.(queue := Missed(key))
    case CheckCap =>
      s.(queue := if s.count >= MAX_POD_GROUP_ENTRIES
                  then Collecting(s.queue.key, s.entries.Keys, map[]) else Storing(s.queue.key))
    case Collect(key) =>
      var q := s.queue;
      s.(queue := q.(todo := q.todo - {key}, seen := if key in s.entries then q.seen[key := s.entries[key]] else q.seen))
    case Choose(victims) =>
      s.(queue := if victims == [] then Storing(s.queue.key) else Evicting(s.queue.key, victims, 0))
    case EvictDelete =>
      var q := s.queue;
      Delete(s, q.victims[q.next]).(queue := Uncounting(q.key, q.victims, q.next))
    case EvictDecrement =>
      var q := s.queue;
      s.(count := s.count - 1,
         queue := if q.next + 1 < |q.victims| then Evicting(q.key, q.victims, q.next + 1) else Storing(q.key))
    case LoadOrStore(now) =>
      if s.queue.key in s.entries then s.(queue := Resting)
      else s.(entries := s.entries[s.queue.key := now], queue := Counting(s.queue.key))
    case Increment => s.(count := s.count + 1, queue := Resting)
    case Tick(now) => s.(sweep := Visiting(now, s.entries.Keys))
    case Visit(key) =>
      var w := s.sweep;
      if key in s.entries && w.now - s.entries[key] > STALE_ENTRY_TTL
      then s.(sweep := Condemned(w.now, w.todo - {key}, key))
      else s.(sweep := Visiting(w.now, w.todo - {key}))
    case SweepDelete => Delete(s, s.sweep.key).(sweep := Deleted(s.sweep.now, s.sweep.todo))
    case SweepDecrement => s.(count := s.count - 1, sweep := Visiting(s.sweep.now, s.sweep.todo))
    case SweepEnd => s.(sweep := Idle)
  }

  function One(b: bool): nat { if b then 1 else 0 }

  /** Stores whose increment is still to come. */
  function PendingIncrements(s: State): nat { One(s.queue.Counting?) }

  /** Deletes whose decrement is still to come. */
  function PendingDecrements(s: State): nat { One(s.queue.Uncounting?) + One(s.sweep.Deleted?) }

  ghost predicate Ledger(s: State) {
    |s.entries| == s.count + PendingIncrements(s) - PendingDecrements(s) + s.misses
  }

  /** What keeps the counter at or below the cap: whoever is about to count a store has left room for it. */
  ghost predicate Room(s: State) {
    && s.count <= MAX_POD_GROUP_ENTRIES
    && (s.queue.Storing? || s.queue.Counting? ==> s.count < MAX_POD_GROUP_ENTRIES)
    && (s.queue.Collecting? && s.queue.seen == map[] ==> s.entries.Keys <= s.queue.todo)
  }

  lemma DeleteCount(s: State, key: string)
    ensures |Delete(s, key).entries| - Delete(s, key).misses == |s.entries| - s.misses - 1
    ensures Delete(s, key).entries.Keys == s.entries.Keys - {key}
  {
    assert Delete(s, key).entries.Keys == s.entries.Keys - {key};
  }

  lemma ActionKeepsLedger(s: State, a: Action)
    requires Enabled(s, a) && Ledger(s)
    ensures Ledger(Do(s, a))
  {
    if a.EvictDelete? {
      DeleteCount(s, s.queue.victims[s.queue.next]);
    } else if a.SweepDelete? {
      DeleteCount(s, s.sweep.key);
    } else if a.LoadOrStore? {
      StoreKeepsLedger(s, a);
    } else {
      assert Do(s, a).entries == s.entries && Do(s, a).misses == s.misses;
    }
  }

  /** No single operation rewrites an entry that stays. */
  lemma ActionKeepsTimes(s: State, a: Action, key: string)
    requires Enabled(s, a) && key in s.entries && key in Do(s, a).entries
    ensures Do(s, a).entries[key] == s.entries[key]
  {
  }

  lemma StoreKeepsLedger(s: State, a: Action)
    requires a.LoadOrStore? && Enabled(s, a) && Ledger(s)
    ensures Ledger(Do(s, a))
  {
    if s.queue.key !in s.entries {
      assert Do(s, a).entries.Keys == s.entries.Keys + {s.queue.key};
    }
  }

  lemma ActionKeepsRoom(s: State, a: Action)
    requires Enabled(s, a) && Ledger(s) && Room(s)
    ensures Room(Do(s, a))
  {
    match a
    case Collect(key) => assert key in s.entries ==> key in Do(s, a).queue.seen;
    case Choose(victims) =>
      if victims == [] {
        assert |s.queue.seen| == 0;
        assert s.entries.Keys == {};
      }
    case EvictDelete => DeleteCount(s, s.queue.victims[s.queue.next]);
    case SweepDelete => DeleteCount(s, s.sweep.key);
    case _ =>
  }

  /** A run: any sequence of enabled actions of the two threads. */
  ghost predicate IsRun(states: seq<State>, actions: seq<Action>) {
    && |states| == |actions| + 1
    && states[0] == INITIAL
    && forall i :: 0 <= i < |actions| ==> Enabled(states[i], actions[i]) && states[i + 1] == Do(states[i], actions[i])
  }

  /** Under every interleaving, size = counter + pending increments - pending decrements + missed deletes,
      and the counter never passes the cap. */
  lemma {:induction false} LedgerInEveryInterleaving(states: seq<State>, actions: seq<Action>, i: nat)
    requires IsRun(states, actions) && i < |states|
    ensures Ledger(states[i]) && Room(states[i])
  {
    if i > 0 {
      LedgerInEveryInterleaving(states, actions, i - 1);
      ActionKeepsLedger(states[i - 1], actions[i - 1]);
      ActionKeepsRoom(states[i - 1], actions[i - 1]);
    }
  }

  /** No store or delete is waiting for its counter operation. */
  predicate AtRest(s: State) {
    PendingIncrements(s) == 0 && PendingDecrements(s) == 0
  }

  /** So the map outgrows its cap by no more than the number of missed deletes; and at rest the counter
      never exceeds the size, and equals it exactly when no delete has missed. */
  lemma SizeAndCounterInEveryInterleaving(states: seq<State>, actions: seq<Action>, i: nat)
    requires IsRun(states, actions) && i < |states|
    ensures |states[i].entries| <= MAX_POD_GROUP_ENTRIES + states[i].misses
    ensures AtRest(states[i]) ==>
              && states[i].count <= |states[i].entries|
              && (states[i].count == |states[i].entries| <==> states[i].misses == 0)
  {
    LedgerInEveryInterleaving(states, actions, i);
  }

  // ---- The counter really can fall behind ----

  ghost predicate Reachable(s: State) {
    exists states, actions :: IsRun(states, actions) && states[|actions|] == s
  }

  lemma Extend(s: State, a: Action)
    requires Reachable(s) && Enabled(s, a)
    ensures Reachable(Do(s, a))
  {
    var states, actions :| IsRun(states, actions) && states[|actions|] == s;
    var states', actions' := states + [Do(s, a)], actions + [a];
    assert IsRun(states', actions') && states'[|actions'|] == Do(s, a);
  }

  lemma ReachableLedger(s: State)
    requires Reachable(s)
    ensures Ledger(s) && Room(s)
  {
    var states, actions :| IsRun(states, actions) && states[|actions|] == s;
    LedgerInEveryInterleaving(states, actions, |actions|);
  }

  /** A supply of distinct gang keys. */
  function Name(i: nat): string { GangKey("default", Itoa(i)) }

  lemma NameInjective(i: nat, j: nat)
    requires Name(i) == Name(j)
    ensures i == j
  {
    GangKeyInjective("default", Itoa(i), "default", Itoa(j));
    DigitsValueOfItoa(i);
    DigitsValueOfItoa(j);
  }

  /** Inserting fresh groups one after the other fills the cache. */
  lemma {:induction false} Fill(n: nat) returns (s: State)
    requires n <= MAX_POD_GROUP_ENTRIES
    ensures Reachable(s) && s.queue == Resting && s.sweep == Idle && s.misses == 0 && s.count == n
    ensures forall i: nat :: Name(i) in s.entries <==> i < n
    ensures forall k :: k in s.entries ==> s.entries[k] == 0
  {
    if n == 0 {
      s := INITIAL;
      var none: seq<Action> := [];
      assert IsRun([INITIAL], none) && [INITIAL][|none|] == s;
    } else {
      var r := Fill(n - 1);
      s := UndisturbedMiss(r, Name(n - 1), 0, []);
      assert r.entries - KeysOf([]) == r.entries;
      forall i: nat ensures Name(i) in s.entries <==> i < n {
        if Name(i) == Name(n - 1) { NameInjective(i, n - 1); }
      }
    }
  }

  /** With nobody interfering, Range collects every entry. */
  lemma {:induction false} CollectAll(s: State) returns (s': State)
    requires Reachable(s) && s.queue.Collecting? && s.queue.todo <= s.entries.Keys
    requires s.queue.seen == s.entries - s.queue.todo
    ensures Reachable(s') && s' == s.(queue := Collecting(s.queue.key, {}, s.entries))
    decreases |s.queue.todo|
  {
    if s.queue.todo == {} {
      assert s.entries - {} == s.entries;
      s' := s;
    } else {
      var k :| k in s.queue.todo;
      Extend(s, Collect(k));
      var r := Do(s, Collect(k));
      assert (s.entries - s.queue.todo)[k := s.entries[k]] == s.entries - (s.queue.todo - {k});
      s' := CollectAll(r);
    }
  }

  /** With nobody interfering, the eviction loop deletes its victims and stops before the store. */
  lemma {:induction false} EvictAll(s: State) returns (s': State)
    requires Reachable(s) && s.queue.Evicting? && s.queue.next < |s.queue.victims|
    requires forall i :: s.queue.next <= i < |s.queue.victims| ==> s.queue.victims[i] in s.entries
    requires forall i, j :: 0 <= i < j < |s.queue.victims| ==> s.queue.victims[i] != s.queue.victims[j]
    ensures Reachable(s') && s'.queue == Storing(s.queue.key) && s'.sweep == s.sweep && s'.misses == s.misses
    ensures s'.entries == s.entries - KeysOf(s.queue.victims[s.queue.next..])
    ensures s'.count == s.count - (|s.queue.victims| - s.queue.next)
    decreases |s.queue.victims| - s.queue.next
  {
    var rest, next := s.queue.victims[s.queue.next..], s.queue.victims[s.queue.next];
    assert KeysOf(rest) == {next} + KeysOf(rest[1..]);
    assert rest[1..] == s.queue.victims[s.queue.next + 1..];
    Extend(s, EvictDelete);
    var r := Do(s, EvictDelete);
    Extend(r, EvictDecrement);
    var t := Do(r, EvictDecrement);
    if s.queue.next + 1 == |s.queue.victims| {
      s' := t;
    } else {
      s' := EvictAll(t);
    }
  }

  function KeysOf(victims: seq<string>): set<string> { set v | v in victims }

  /** The sweep condemns a group, the eviction deletes it first, and the sweep's own delete misses. */
  lemma CounterCanFallBehind()
    ensures exists s :: Reachable(s) && AtRest(s) && s.count < |s.entries|
  {
    var s := Fill(MAX_POD_GROUP_ENTRIES);
    var late := STALE_ENTRY_TTL + 1;
    Extend(s, Tick(late));
    var s1 := Do(s, Tick(late));
    Extend(s1, Visit(Name(0)));
    var s2 := Do(s1, Visit(Name(0)));
    var s3 := EvictFirstName(s2);
    MissedDelete(s3);
  }

  lemma MissedDelete(s: State)
    requires Reachable(s) && s.queue.Storing? && s.sweep.Condemned?
    requires s.queue.key !in s.entries && s.sweep.key !in s.entries
    ensures exists s' :: Reachable(s') && AtRest(s') && s'.count < |s'.entries|
  {
    Extend(s, SweepDelete);
    var r1 := Do(s, SweepDelete);
    Extend(r1, SweepDecrement);
    var r2 := Do(r1, SweepDecrement);
    var r3 := StoreAndCount(r2, STALE_ENTRY_TTL + 2);
    ReachableLedger(r3);
  }

  /** From a full cache, looking up a new group evicts a fifth of it, the named group included. */
  lemma EvictFirstName(s: State) returns (s': State)
    requires Reachable(s) && s.queue == Resting && s.count == MAX_POD_GROUP_ENTRIES
    requires !s.sweep.Deleted? && s.misses == 0
    requires forall i: nat :: Name(i) in s.entries <==> i < MAX_POD_GROUP_ENTRIES
    requires forall k :: k in s.entries ==> s.entries[k] == 0
    ensures Reachable(s') && s'.queue == Storing(Name(MAX_POD_GROUP_ENTRIES))
    ensures s'.sweep == s.sweep && s'.misses == s.misses
    ensures s'.entries.Keys <= s.entries.Keys - {Name(0)}
  {
    ReachableLedger(s);
    var newcomer := Name(MAX_POD_GROUP_ENTRIES);
    Extend(s, LoadMiss(newcomer));
    var r1 := Do(s, LoadMiss(newcomer));
    Extend(r1, CheckCap);
    assert s.entries - s.entries.Keys == map[];
    var r2 := CollectAll(Do(r1, CheckCap));
    var victims := seq(EvictCount(MAX_POD_GROUP_ENTRIES), i requires 0 <= i => Name(i));
    forall i, j | 0 <= i < j < |victims| ensures victims[i] != victims[j] {
      if Name(i) == Name(j) { NameInjective(i, j); }
    }
    Extend(r2, Choose(victims));
    s' := EvictAll(Do(r2, Choose(victims)));
    assert victims[0..][0] == Name(0);
  }

  // ---- Undisturbed, each thread does what the atomic step does ----

  /** A cache by its update times. */
  function Times(m: Cache): Entries { map k | k in m :: m[k].lastUpdateTime }

  /** A lookup that misses, with nobody interfering: it stores below the cap, and at the cap first deletes
      the victims chosen from all the entries. */
  lemma UndisturbedMiss(s: State, key: string, now: int, victims: seq<string>) returns (s': State)
    requires Reachable(s) && s.queue == Resting && key !in s.entries
    requires s.count >= MAX_POD_GROUP_ENTRIES ==> s.entries != map[] && Chosen(s.entries, victims)
    ensures Reachable(s') && s'.queue == Resting && s'.sweep == s.sweep && s'.misses == s.misses
    ensures var evicted := if s.count >= MAX_POD_GROUP_ENTRIES then victims else [];
            s'.entries == (s.entries - KeysOf(evicted))[key := now] && s'.count == s.count - |evicted| + 1
  {
    Extend(s, LoadMiss(key));
    var r1 := Do(s, LoadMiss(key));
    Extend(r1, CheckCap);
    var r2 := Do(r1, CheckCap);
    if s.count >= MAX_POD_GROUP_ENTRIES {
      assert s.entries - s.entries.Keys == map[];
      r2 := CollectAll(r2);
      Extend(r2, Choose(victims));
      assert |victims| > 0;
      r2 := EvictAll(Do(r2, Choose(victims)));
      assert victims[0..] == victims;
    } else {
      assert s.entries - {} == s.entries;
    }
    s' := StoreAndCount(r2, now);
  }

  lemma StoreAndCount(s: State, now: int) returns (s': State)
    requires Reachable(s) && s.queue.Storing? && s.queue.key !in s.entries
    ensures Reachable(s') && s' == s.(entries := s.entries[s.queue.key := now], count := s.count + 1, queue := Resting)
  {
    Extend(s, LoadOrStore(now));
    var r := Do(s, LoadOrStore(now));
    Extend(r, Increment);
    s' := Do(r, Increment);
  }

  lemma {:induction false} DistinctKeysCount(victims: seq<string>)
    requires forall i, j :: 0 <= i < j < |victims| ==> victims[i] != victims[j]
    ensures |KeysOf(victims)| == |victims|
  {
    if |victims| > 0 {
      var front, last := victims[..|victims| - 1], victims[|victims| - 1];
      DistinctKeysCount(front);
      assert victims == front + [last];
      assert KeysOf(victims) == KeysOf(front) + {last};
    }
  }

  /** Deleting a choice made from all entries is the eviction of the atomic model. */
  lemma ChosenIsEvicted(m: Cache, victims: seq<string>)
    requires Chosen(Times(m), victims)
    ensures Evicted(m, m - KeysOf(victims)) && |m - KeysOf(victims)| == |m| - |victims|
  {
    var m' := m - KeysOf(victims);
    DistinctKeysCount(victims);
    assert Times(m).Keys == m.Keys && |Times(m)| == |Times(m).Keys| == |m.Keys| == |m|;
    assert m'.Keys == m.Keys - KeysOf(victims);
    assert |m.Keys - KeysOf(victims)| == |m.Keys| - |KeysOf(victims)|;
    forall gone, kept | gone in m && gone !in m' && kept in m' ensures m[gone].lastUpdateTime <= m'[kept].lastUpdateTime {
      assert Times(m)[gone] == m[gone].lastUpdateTime && Times(m)[kept] == m[kept].lastUpdateTime;
    }
  }

  /** So an undisturbed lookup is the atomic lookup step. */
  lemma UndisturbedLookupIsStep(s: State, c: CacheState, p: QueuedPod, now: int, victims: seq<string>)
    returns (s': State, c': CacheState)
    requires Reachable(s) && s.queue == Resting && s.entries == Times(c.infos) && s.count == c.count
    requires p.group.IsGang() && PodKey(p) !in c.infos
    requires s.count >= MAX_POD_GROUP_ENTRIES ==> s.entries != map[] && Chosen(s.entries, victims)
    ensures Reachable(s') && s'.queue == Resting && s'.sweep == s.sweep && s'.misses == s.misses
    ensures LookupStep(c, p, now, c') && s'.entries == Times(c'.infos) && s'.count == c'.count
  {
    s' := UndisturbedMiss(s, PodKey(p), now, victims);
    c' := AtomicMiss(c, p, now, if s.count >= MAX_POD_GROUP_ENTRIES then victims else []);
  }

  lemma AtomicMiss(c: CacheState, p: QueuedPod, now: int, evicted: seq<string>) returns (c': CacheState)
    requires p.group.IsGang() && PodKey(p) !in c.infos
    requires if c.count >= MAX_POD_GROUP_ENTRIES then Chosen(Times(c.infos), evicted) else evicted == []
    ensures LookupStep(c, p, now, c') && c'.count == c.count - |evicted| + 1
    ensures Times(c'.infos) == (Times(c.infos) - KeysOf(evicted))[PodKey(p) := now]
  {
    var room := c.infos - KeysOf(evicted);
    c' := CacheState(room[PodKey(p) := FreshInfo(p, now)], c.count - |evicted| + 1);
    TimesWithout(c.infos, KeysOf(evicted));
    TimesWith(room, PodKey(p), FreshInfo(p, now));
    if c.count >= MAX_POD_GROUP_ENTRIES { ChosenIsEvicted(c.infos, evicted); } else { assert room == c.infos; }
    InsertIsLookup(c, p, now, CacheState(room, c.count - |evicted|));
  }

  lemma InsertIsLookup(c: CacheState, p: QueuedPod, now: int, room: CacheState)
    requires p.group.IsGang() && PodKey(p) !in c.infos && PodKey(p) !in room.infos
    requires if c.count >= MAX_POD_GROUP_ENTRIES
             then Evicted(c.infos, room.infos) && c.count - room.count == |c.infos| - |room.infos|
             else room == c
    ensures LookupStep(c, p, now, CacheState(room.infos[PodKey(p) := FreshInfo(p, now)], room.count + 1))
  {
    assert room.infos[PodKey(p) := FreshInfo(p, now)] - {PodKey(p)} == room.infos;
  }

  lemma TimesWithout(m: Cache, gone: set<string>)
    ensures Times(m - gone) == Times(m) - gone
  {
  }

  lemma TimesWith(m: Cache, key: string, info: PodGroupInfo)
    ensures Times(m[key := info]) == Times(m)[key := info.lastUpdateTime]
  {
  }

  /** What a sweep at this time keeps, some keys being still to visit. */
  function Kept(entries: Entries, now: int, todo: set<string>): Entries {
    map k | k in entries && (k !in todo || now - entries[k] <= STALE_ENTRY_TTL) :: entries[k]
  }

  /** A sweep with nobody interfering deletes and uncounts exactly the stale entries. */
  lemma {:induction false} SweepAll(s: State) returns (s': State)
    requires Reachable(s) && s.sweep.Visiting? && s.sweep.todo <= s.entries.Keys
    ensures Reachable(s') && s' == s.(entries := s'.entries, count := s'.count, sweep := Idle)
    ensures s'.entries == Kept(s.entries, s.sweep.now, s.sweep.todo)
    ensures s.count - s'.count == |s.entries| - |s'.entries|
    decreases |s.sweep.todo|
  {
    var now, todo := s.sweep.now, s.sweep.todo;
    if todo == {} {
      Extend(s, SweepEnd);
      s' := Do(s, SweepEnd);
      assert Kept(s.entries, now, {}) == s.entries;
    } else {
      var k :| k in todo;
      var r := VisitOne(s, k);
      s' := SweepAll(r);
      assert Kept(r.entries, now, todo - {k}) == Kept(s.entries, now, todo);
    }
  }

  lemma VisitOne(s: State, k: string) returns (s': State)
    requires Reachable(s) && s.sweep.Visiting? && k in s.sweep.todo && k in s.entries
    ensures Reachable(s') && s'.sweep == Visiting(s.sweep.now, s.sweep.todo - {k})
    ensures s'.queue == s.queue && s'.misses == s.misses
    ensures s'.entries == if s.sweep.now - s.entries[k] > STALE_ENTRY_TTL then s.entries - {k} else s.entries
    ensures s.count - s'.count == |s.entries| - |s'.entries|
  {
    Extend(s, Visit(k));
    s' := Do(s, Visit(k));
    if s'.sweep.Condemned? {
      DeleteCount(s', k);
      Extend(s', SweepDelete);
      s' := Do(s', SweepDelete);
      Extend(s', SweepDecrement);
      s' := Do(s', SweepDecrement);
    }
  }

  /** So an undisturbed sweep is the atomic sweep step. */
  lemma UndisturbedSweepIsStep(s: State, c: CacheState, now: int) returns (s': State, c': CacheState)
    requires Reachable(s) && s.sweep == Idle && s.entries == Times(c.infos) && s.count == c.count
    ensures Reachable(s') && s'.sweep == Idle && s'.queue == s.queue && s'.misses == s.misses
    ensures SweepStep(c, now, c') && s'.entries == Times(c'.infos) && s'.count == c'.count
  {
    Extend(s, Tick(now));
    s' := SweepAll(Do(s, Tick(now)));
    c' := CacheState(map k | k in c.infos && now - c.infos[k].lastUpdateTime <= STALE_ENTRY_TTL :: c.infos[k], s'.count);
    assert s'.entries == Times(c'.infos);
    SameSize(c.infos);
    SameSize(c'.infos);
  }

  lemma SameSize(m: Cache)
    ensures |Times(m)| == |m|
  {
    assert Times(m).Keys == m.Keys;
  }
}
