/** The scheduling queue's comparator with its starvation boost
    (pkg/plugins/coscheduling/coscheduling.go, Less). */
module QueueOrder {
  import opened Text
  import opened PodGroups
  import opened GroupCache

  const STARVATION_THRESHOLD: int := 60_000_000_000

  function Priority(p: QueuedPod): int {
    if p.priority.Some? then p.priority.value else 0
  }

  predicate Starving(info: PodGroupInfo, now: int) {
    now - info.timestamp > STARVATION_THRESHOLD
  }

  /** The comparison itself, once both pods' group records are at hand. */
  predicate Precedes(a: QueuedPod, infoA: PodGroupInfo, b: QueuedPod, infoB: PodGroupInfo, now: int) {
    var starving1, starving2 := Starving(infoA, now), Starving(infoB, now);
    if starving1 && !starving2 then true
    else if !starving1 && starving2 then false
    else if Priority(a) != Priority(b) then Priority(a) > Priority(b)
    else if infoA.timestamp != infoB.timestamp then infoA.timestamp < infoB.timestamp
    else LexLess(GangKey(a.namespace, infoA.name), GangKey(b.namespace, infoB.name))
  }

  /** The queue's Less: two lookups, which may insert and evict, then the comparison. Pods whose
      groups are already known leave the cache alone. */
  method Less(cs: Coscheduling, a: QueuedPod, b: QueuedPod, now: int) returns (less: bool, ghost mid: CacheState)
    modifies cs
    ensures LookupStep(old(cs.State()), a, now, mid) && LookupStep(mid, b, now, cs.State())
    ensures less == Precedes(a, InfoFor(old(cs.podGroupInfos), a, now), b, InfoFor(mid.infos, b, now), now)
    ensures Known(old(cs.podGroupInfos), a) && Known(old(cs.podGroupInfos), b) ==>
              cs.State() == old(cs.State()) && less == LessAt(old(cs.podGroupInfos), now, a, b)
  {
    var infoA := cs.GetPodGroupInfoFromQueued(a, now);
    mid := cs.State();
    var infoB := cs.GetPodGroupInfoFromQueued(b, now);
    less := Precedes(a, infoA, b, infoB, now);
  }

  predicate Known(infos: Cache, p: QueuedPod) {
    p.group.IsGang() ==> PodKey(p) in infos
  }

  /** The order at one instant over one cache, the cache holding every queued gang. */
  predicate LessAt(infos: Cache, now: int, a: QueuedPod, b: QueuedPod) {
    Precedes(a, InfoFor(infos, a, now), b, InfoFor(infos, b, now), now)
  }

  // ---- What decides, read off the pods ----

  /** When the pod's group was first submitted: the cached record's time, or for a pod without record its own. */
  function SubmittedAt(infos: Cache, p: QueuedPod): int {
    if p.group.IsGang() && PodKey(p) in infos then infos[PodKey(p)].timestamp else p.timestamp
  }

  /** The group part of the key a pod is compared by: empty outside gangs. */
  function KeyName(p: QueuedPod): string { if p.group.IsGang() then p.group.name else "" }

  predicate StarvesAt(infos: Cache, now: int, p: QueuedPod) {
    SubmittedAt(infos, p) < now - 60_000_000_000
  }

  /** More than a minute since submission goes before a minute or less, whatever the priorities. */
  lemma StarvingGoesFirst(infos: Cache, now: int, a: QueuedPod, b: QueuedPod)
    requires StarvesAt(infos, now, a) && !StarvesAt(infos, now, b)
    ensures LessAt(infos, now, a, b) && !LessAt(infos, now, b, a)
  {
  }

  /** Otherwise the higher given priority goes first, however the pods came by their groups and times. */
  lemma HigherPriorityGoesFirst(infos: Cache, now: int, a: QueuedPod, b: QueuedPod, x: int, y: int)
    requires StarvesAt(infos, now, a) == StarvesAt(infos, now, b)
    requires a.priority == Some(x) && b.priority == Some(y) && x > y
    ensures LessAt(infos, now, a, b) && !LessAt(infos, now, b, a)
  {
  }

  /** A missing priority compares as 0, before negative and after positive ones. */
  lemma MissingPriorityIsZero(infos: Cache, now: int, a: QueuedPod, b: QueuedPod)
    requires StarvesAt(infos, now, a) == StarvesAt(infos, now, b) && a.priority.None?
    ensures b.priority.Some? && b.priority.value < 0 ==> LessAt(infos, now, a, b) && !LessAt(infos, now, b, a)
    ensures b.priority.Some? && b.priority.value > 0 ==> LessAt(infos, now, b, a) && !LessAt(infos, now, a, b)
    ensures LessAt(infos, now, a, b) == LessAt(infos, now, a.(priority := Some(0)), b)
    ensures LessAt(infos, now, b, a) == LessAt(infos, now, b, a.(priority := Some(0)))
  {
  }

  /** With equal priorities the earlier submission goes first, and at equal times the smaller key. */
  lemma EarlierSubmissionGoesFirst(infos: Cache, now: int, a: QueuedPod, b: QueuedPod)
    requires StarvesAt(infos, now, a) == StarvesAt(infos, now, b) && a.priority == b.priority
    ensures SubmittedAt(infos, a) < SubmittedAt(infos, b) ==> LessAt(infos, now, a, b) && !LessAt(infos, now, b, a)
    ensures SubmittedAt(infos, a) == SubmittedAt(infos, b) && WellKeyed(infos) ==>
              (LessAt(infos, now, a, b) <==>
                 LexLess(GangKey(a.namespace, KeyName(a)), GangKey(b.namespace, KeyName(b))))
  {
    if WellKeyed(infos) {
      CachedUnderOwnName(infos, a, now);
      CachedUnderOwnName(infos, b, now);
    }
  }

  // ---- The comparator is a lexicographic rank ----

  datatype Rank = Rank(starving: bool, priority: int, timestamp: int, key: string)

  function RankOf(infos: Cache, now: int, p: QueuedPod): Rank {
    var info := InfoFor(infos, p, now);
    Rank(Starving(info, now), Priority(p), info.timestamp, GangKey(p.namespace, info.name))
  }

  /** Starving first, then higher priority, then earlier submission, then smaller key. */
  ghost predicate RankLess(r: Rank, s: Rank) {
    || (r.starving && !s.starving)
    || (r.starving == s.starving && r.priority > s.priority)
    || (r.starving == s.starving && r.priority == s.priority && r.timestamp < s.timestamp)
    || (r.starving == s.starving && r.priority == s.priority && r.timestamp == s.timestamp && LexLess(r.key, s.key))
  }

  lemma LessIsRankOrder(infos: Cache, now: int, a: QueuedPod, b: QueuedPod)
    ensures LessAt(infos, now, a, b) <==> RankLess(RankOf(infos, now, a), RankOf(infos, now, b))
  {
  }

  lemma RankTotal(r: Rank, s: Rank)
    ensures !(RankLess(r, s) && RankLess(s, r))
    ensures RankLess(r, s) || RankLess(s, r) <==> r != s
  {
    LexTotal(r.key, s.key);
  }

  lemma RankTransitive(r: Rank, s: Rank, t: Rank)
    requires RankLess(r, s) && RankLess(s, t)
    ensures RankLess(r, t)
  {
    if LexLess(r.key, s.key) && LexLess(s.key, t.key) { LexTransitive(r.key, s.key, t.key); }
  }

  /** Less is a strict weak order: asymmetric, transitive, and "neither precedes the other" is the
      equivalence of having the same rank. */
  lemma LessIsStrictWeakOrder(infos: Cache, now: int, a: QueuedPod, b: QueuedPod, c: QueuedPod)
    ensures !LessAt(infos, now, a, a)
    ensures LessAt(infos, now, a, b) ==> !LessAt(infos, now, b, a)
    ensures LessAt(infos, now, a, b) && LessAt(infos, now, b, c) ==> LessAt(infos, now, a, c)
    ensures !LessAt(infos, now, a, b) && !LessAt(infos, now, b, a) <==>
              RankOf(infos, now, a) == RankOf(infos, now, b)
  {
    var r, s, t := RankOf(infos, now, a), RankOf(infos, now, b), RankOf(infos, now, c);
    LessIsRankOrder(infos, now, a, a);
    LessIsRankOrder(infos, now, a, b);
    LessIsRankOrder(infos, now, b, a);
    LessIsRankOrder(infos, now, b, c);
    LessIsRankOrder(infos, now, a, c);
    RankTotal(r, r);
    RankTotal(r, s);
    if RankLess(r, s) && RankLess(s, t) { RankTransitive(r, s, t); }
  }

  // ---- What a sorted queue looks like ----

  /** No pod stands behind one it should precede. */
  ghost predicate Sorted(infos: Cache, now: int, queue: seq<QueuedPod>) {
    forall i, j :: 0 <= i < j < |queue| ==> !LessAt(infos, now, queue[j], queue[i])
  }

  ghost predicate SameGang(a: QueuedPod, b: QueuedPod) {
    a.group.IsGang() && b.group.IsGang() && a.namespace == b.namespace && a.group.name == b.group.name
  }

  /** A sorted queue never separates two equal-priority members of one gang. */
  lemma GangMembersAreContiguous(infos: Cache, now: int, queue: seq<QueuedPod>, i: nat, j: nat, k: nat)
    requires Sorted(infos, now, queue) && i < j < k < |queue|
    requires forall n :: 0 <= n < |queue| ==> Known(infos, queue[n])
    requires WellKeyed(infos)
    requires SameGang(queue[i], queue[k]) && Priority(queue[i]) == Priority(queue[k])
    ensures SameGang(queue[i], queue[j])
  {
    var a, b, c := queue[i], queue[j], queue[k];
    CachedUnderOwnName(infos, a, now);
    CachedUnderOwnName(infos, b, now);
    assert RankOf(infos, now, a) == RankOf(infos, now, c);
    SandwichedRank(infos, now, a, b, c);
    GangKeyInjective(a.namespace, a.group.name, b.namespace, InfoFor(infos, b, now).name);
  }

  /** In particular over every cache a run can reach. */
  lemma GangMembersAreContiguousInEveryRun(
      states: seq<CacheState>, events: seq<Event>, n: nat, now: int, queue: seq<QueuedPod>, i: nat, j: nat, k: nat)
    requires IsRun(states, events) && n < |states|
    requires Sorted(states[n].infos, now, queue) && i < j < k < |queue|
    requires forall x :: 0 <= x < |queue| ==> Known(states[n].infos, queue[x])
    requires SameGang(queue[i], queue[k]) && Priority(queue[i]) == Priority(queue[k])
    ensures SameGang(queue[i], queue[j])
  {
    CounterIsSizeInEveryRun(states, events, n);
    GangMembersAreContiguous(states[n].infos, now, queue, i, j, k);
  }

  /** A gang pod's cached record carries the pod's own group name. */
  lemma CachedUnderOwnName(infos: Cache, p: QueuedPod, now: int)
    requires WellKeyed(infos)
    ensures InfoFor(infos, p, now).name == KeyName(p)
  {
    if p.group.IsGang() && PodKey(p) in infos {
      var info := infos[PodKey(p)];
      GangKeyInjective(p.namespace, p.group.name, info.namespace, info.name);
    }
  }

  /** Between two pods of equal rank a sorted queue only holds that rank. */
  lemma SandwichedRank(infos: Cache, now: int, a: QueuedPod, b: QueuedPod, c: QueuedPod)
    requires !LessAt(infos, now, b, a) && !LessAt(infos, now, c, b)
    requires RankOf(infos, now, a) == RankOf(infos, now, c)
    ensures RankOf(infos, now, b) == RankOf(infos, now, a)
  {
    LessIsRankOrder(infos, now, b, a);
    LessIsRankOrder(infos, now, c, b);
    RankTotal(RankOf(infos, now, a), RankOf(infos, now, b));
  }

  /** No group submitted in the last 60 seconds stands ahead of a starving one, whatever the priorities. */
  lemma NoFreshGroupAheadOfStarving(infos: Cache, now: int, queue: seq<QueuedPod>, i: nat, j: nat)
    requires Sorted(infos, now, queue) && i < j < |queue|
    requires Starving(InfoFor(infos, queue[j], now), now)
    ensures Starving(InfoFor(infos, queue[i], now), now)
  {
  }

  // ---- The order is only fixed for one instant ----

  /** Ahead on priority, submission time and key, starvation aside. */
  predicate AheadOnMerit(infos: Cache, now: int, a: QueuedPod, b: QueuedPod) {
    var infoA, infoB := InfoFor(infos, a, now), InfoFor(infos, b, now);
    || Priority(a) > Priority(b)
    || (Priority(a) == Priority(b) && infoA.timestamp < infoB.timestamp)
    || (Priority(a) == Priority(b) && infoA.timestamp == infoB.timestamp
        && LexLess(GangKey(a.namespace, infoA.name), GangKey(b.namespace, infoB.name)))
  }

  /** Over one cache, the order of two pods reverses between two instants exactly when the one behind
      alone starts to starve, or the one behind on merit loses the head start of starving alone. */
  lemma OrderReversesExactlyWhen(infos: Cache, now: int, later: int, a: QueuedPod, b: QueuedPod)
    requires now <= later && Known(infos, a) && Known(infos, b)
    ensures var infoA, infoB := InfoFor(infos, a, now), InfoFor(infos, b, now);
            LessAt(infos, now, a, b) && LessAt(infos, later, b, a) <==>
              || (!Starving(infoA, now) && !Starving(infoB, now) && AheadOnMerit(infos, now, a, b)
                  && !Starving(infoA, later) && Starving(infoB, later))
              || (Starving(infoA, now) && !Starving(infoB, now) && Starving(infoB, later) && AheadOnMerit(infos, now, b, a))
  {
    var infoA, infoB := InfoFor(infos, a, now), InfoFor(infos, b, now);
    assert InfoFor(infos, a, later) == infoA && InfoFor(infos, b, later) == infoB;
    LexTotal(GangKey(a.namespace, infoA.name), GangKey(b.namespace, infoB.name));
  }

  /** Both ways do occur, with pods queued by the first instant: a low-priority pod crosses the
      threshold and overtakes; and a starving one is overtaken once its better rival starves too. */
  lemma OrderDoesReverse()
    ensures exists a: QueuedPod, b: QueuedPod, now, later ::
              a.timestamp <= now && b.timestamp <= now <= later && LessAt(map[], now, a, b) && LessAt(map[], later, b, a)
              && !Starving(InfoFor(map[], a, now), now)
    ensures exists a: QueuedPod, b: QueuedPod, now, later ::
              a.timestamp <= now && b.timestamp <= now <= later && LessAt(map[], now, a, b) && LessAt(map[], later, b, a)
              && Starving(InfoFor(map[], a, now), now)
  {
    var urgent := QueuedPod("ns", Ungrouped, Some(10), 1);
    var patient := QueuedPod("ns", Ungrouped, Some(0), 0);
    var crossing := STARVATION_THRESHOLD + 1;
    assert LessAt(map[], 1, urgent, patient) && LessAt(map[], crossing, patient, urgent);
    assert LessAt(map[], crossing, patient, urgent) && LessAt(map[], crossing + 1, urgent, patient);
  }
}
