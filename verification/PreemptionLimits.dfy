/** Two limits of gang preemption: what the cap of 50 victims costs, and when preemptions can go round in
    a circle (pkg/plugins/preemption/gang_preemption.go). */
module PreemptionLimits {
  import opened Text
  import opened PodGroups
  import opened Preemption

  function NeedsOf(gang: Pod): Resources
    requires gang.group.IsGang()
  {
    CalculateGangResourceNeeds(gang, gang.group.minAvailable)
  }

  /** On this listing and these nodes, PostFilter for a gang pod can name these victims. */
  ghost predicate Names(
      gang: Pod, all: seq<Pod>, nodes: set<string>, ranked: seq<VictimCandidate>, victims: seq<VictimCandidate>) {
    && gang.group.IsGang()
    && multiset(ranked) == multiset(Candidates(gang, all, nodes)) && Ranked(ranked)
    && GreedyPrefix(ranked, NeedsOf(gang), victims)
  }

  const MIN_INT32: int := -0x8000_0000
  const MAX_INT32: int := 0x7FFF_FFFF

  /** What the API server asks of every pod: a container, and a 32-bit priority. */
  predicate Admitted(p: Pod) {
    |p.containers| > 0 && MIN_INT32 <= PriorityOf(p) <= MAX_INT32
  }

  /** A listing the cluster can show while the gang pod is pending: admitted pods, names unique in a
      namespace, and no placed pod under the gang pod's name. */
  predicate Possible(gang: Pod, all: seq<Pod>) {
    && (forall i :: 0 <= i < |all| ==> Admitted(all[i]))
    && (forall i, j :: 0 <= i < j < |all| && all[i].namespace == all[j].namespace ==> all[i].name != all[j].name)
    && forall i :: 0 <= i < |all| && all[i].nodeName != "" && all[i].namespace == gang.namespace ==> all[i].name != gang.name
  }

  lemma {:induction false} AllEligible(gang: Pod, all: seq<Pod>, nodes: set<string>)
    requires forall i :: 0 <= i < |all| ==> IsCandidate(gang, all[i], nodes)
    ensures |Candidates(gang, all, nodes)| == |all|
    ensures forall i :: 0 <= i < |all| ==> Candidates(gang, all, nodes)[i] == CandidateOf(all[i])
  {
    if |all| > 0 {
      var front := all[..|all| - 1];
      AllEligible(gang, front, nodes);
      var before := Candidates(gang, front, nodes);
      assert Candidates(gang, all, nodes) == before + [CandidateOf(all[|all| - 1])];
    }
  }

  lemma SameStanding(p: Pod, q: Pod)
    requires p.queue == q.queue && p.namespace == q.namespace
    ensures VictimTier(p) == VictimTier(q)
  {
  }

  // ---- The cap ----

  /** There is room below the gang pod for a victim of its own namespace and queue. */
  predicate MayPreemptAtHome(gang: Pod) {
    || VictimTier(gang) < PreemptorTier(gang)
    || (VictimTier(gang) == PreemptorTier(gang) && PriorityOf(gang) > MIN_INT32)
  }

  /** One step below the gang pod, or level with it where its profile outranks its text. */
  function BystanderPriority(gang: Pod): int {
    if VictimTier(gang) < PreemptorTier(gang) then PriorityOf(gang) else PriorityOf(gang) - 1
  }

  /** A pod of the same namespace and queue as the gang, placed, outside any gang and open to preemption. */
  function Bystander(gang: Pod, node: string, name: string, containers: seq<Resources>): Pod {
    gang.(name := name, group := Ungrouped, nodeName := node,
          priority := Some(BystanderPriority(gang)), containers := containers)
  }

  lemma BystanderIsCandidate(gang: Pod, node: string, name: string, containers: seq<Resources>)
    requires node != "" && MayPreemptAtHome(gang) && |containers| == 1
    ensures IsCandidate(gang, Bystander(gang, node, name, containers), {node})
    ensures var c := CandidateOf(Bystander(gang, node, name, containers));
            c.tier == VictimTier(gang) && c.priority == BystanderPriority(gang) && c.freed == containers[0]
  {
    SameStanding(gang, Bystander(gang, node, name, containers));
    DemandOfOne(containers);
  }

  /** The idle ones have one container that requests nothing; the busy one holds all the gang needs. */
  function Held(gang: Pod, busy: bool): (containers: seq<Resources>)
    requires gang.group.IsGang()
    ensures |containers| == 1 && containers[0] == if busy then NeedsOf(gang) else Resources(0, 0, 0)
  {
    [if busy then NeedsOf(gang) else Resources(0, 0, 0)]
  }

  /** All but the last are idle. */
  function Crowd(gang: Pod, node: string, names: seq<string>): seq<Pod>
    requires gang.group.IsGang()
  {
    seq(|names|, i requires 0 <= i < |names| => Bystander(gang, node, names[i], Held(gang, i == |names| - 1)))
  }

  /** Beyond 50 candidates nil is not final: for any more distinct pod names, and every admitted gang pod
      that requests CPU and may preempt in its own namespace, there is a possible listing of pods of those
      names, one of which alone frees the whole need, on which the choice is nil whichever way ties are
      ranked. */
  lemma NilIsNotFinalBeyondTheCap(gang: Pod, node: string, names: seq<string>)
    requires |names| > 50 && node != "" && gang.name !in names
    requires forall i, j :: 0 <= i < j < |names| ==> names[i] != names[j]
    requires gang.group.IsGang() && Admitted(gang) && MayPreemptAtHome(gang) && Demand(gang.containers).cpu > 0
    ensures var all := Crowd(gang, node, names);
            && Possible(gang, all)
            && |all| == |names| && (forall i :: 0 <= i < |names| ==> all[i].name == names[i])
            && Names(gang, all, {node}, Candidates(gang, all, {node}), [])
            && (forall ranked, victims :: Names(gang, all, {node}, ranked, victims) ==> |victims| == 0)
            && |Candidates(gang, all, {node})| == |names|
            && AtLeast(Candidates(gang, all, {node})[|names| - 1].freed, NeedsOf(gang))
  {
    CrowdIsPossible(gang, node, names);
    var candidates := CrowdCandidates(gang, node, names);
    OneBusyIsRanked(candidates);
    NilOnTheCrowd(candidates, candidates, NeedsOf(gang));
    forall ranked, victims | Names(gang, Crowd(gang, node, names), {node}, ranked, victims) ensures |victims| == 0 {
      NilOnTheCrowd(candidates, ranked, NeedsOf(gang));
    }
  }

  lemma CrowdIsPossible(gang: Pod, node: string, names: seq<string>)
    requires gang.group.IsGang() && Admitted(gang) && MayPreemptAtHome(gang) && gang.name !in names
    requires forall i, j :: 0 <= i < j < |names| ==> names[i] != names[j]
    ensures Possible(gang, Crowd(gang, node, names))
  {
  }

  /** Equal standing, and only the last one frees CPU. */
  ghost predicate OneBusy(candidates: seq<VictimCandidate>) {
    && (forall i :: 0 <= i < |candidates| ==>
          candidates[i].tier == candidates[0].tier && candidates[i].priority == candidates[0].priority)
    && forall i :: 0 <= i < |candidates| - 1 ==> candidates[i].freed.cpu == 0
  }

  lemma OneBusyIsRanked(candidates: seq<VictimCandidate>)
    requires OneBusy(candidates)
    ensures Ranked(candidates)
  {
  }

  /** A candidate level with the others that frees this much. */
  predicate Level(c: VictimCandidate, tier: int, priority: int, freed: Resources) {
    c.tier == tier && c.priority == priority && c.freed == freed
  }

  /** All level, all idle but the last. */
  ghost predicate LevelCrowd(candidates: seq<VictimCandidate>, tier: int, priority: int, needs: Resources) {
    forall i :: 0 <= i < |candidates| ==>
      Level(candidates[i], tier, priority, if i == |candidates| - 1 then needs else Resources(0, 0, 0))
  }

  lemma LevelCrowdIsOneBusy(candidates: seq<VictimCandidate>, tier: int, priority: int, needs: Resources)
    requires |candidates| > 0 && LevelCrowd(candidates, tier, priority, needs)
    ensures OneBusy(candidates) && candidates[|candidates| - 1].freed == needs
  {
    assert Level(candidates[0], tier, priority, if 0 == |candidates| - 1 then needs else Resources(0, 0, 0));
  }

  lemma NeedIsPositive(gang: Pod)
    requires gang.group.IsGang() && Demand(gang.containers).cpu > 0
    ensures NeedsOf(gang).cpu > 0
  {
  }

  lemma CrowdMember(gang: Pod, node: string, names: seq<string>, i: nat)
    requires i < |names| && node != "" && gang.group.IsGang() && MayPreemptAtHome(gang)
    ensures IsCandidate(gang, Crowd(gang, node, names)[i], {node})
    ensures Level(CandidateOf(Crowd(gang, node, names)[i]), VictimTier(gang), BystanderPriority(gang),
                  if i == |names| - 1 then NeedsOf(gang) else Resources(0, 0, 0))
  {
    BystanderIsCandidate(gang, node, names[i], Held(gang, i == |names| - 1));
  }

  lemma CrowdIsLevel(gang: Pod, node: string, names: seq<string>, candidates: seq<VictimCandidate>)
    requires node != "" && gang.group.IsGang() && MayPreemptAtHome(gang)
    requires candidates == Candidates(gang, Crowd(gang, node, names), {node})
    ensures |candidates| == |names| && LevelCrowd(candidates, VictimTier(gang), BystanderPriority(gang), NeedsOf(gang))
  {
    var all := Crowd(gang, node, names);
    forall i | 0 <= i < |names| ensures IsCandidate(gang, all[i], {node}) {
      CrowdMember(gang, node, names, i);
    }
    AllEligible(gang, all, {node});
    forall i | 0 <= i < |names|
      ensures Level(candidates[i], VictimTier(gang), BystanderPriority(gang),
                    if i == |names| - 1 then NeedsOf(gang) else Resources(0, 0, 0))
    {
      CrowdMember(gang, node, names, i);
    }
  }

  lemma CrowdCandidates(gang: Pod, node: string, names: seq<string>) returns (candidates: seq<VictimCandidate>)
    requires |names| > 0 && node != "" && gang.group.IsGang() && MayPreemptAtHome(gang)
    requires Demand(gang.containers).cpu > 0
    ensures candidates == Candidates(gang, Crowd(gang, node, names), {node}) && |candidates| == |names|
    ensures OneBusy(candidates)
    ensures candidates[|names| - 1].freed == NeedsOf(gang) && NeedsOf(gang).cpu > 0
  {
    candidates := Candidates(gang, Crowd(gang, node, names), {node});
    CrowdIsLevel(gang, node, names, candidates);
    LevelCrowdIsOneBusy(candidates, VictimTier(gang), BystanderPriority(gang), NeedsOf(gang));
    NeedIsPositive(gang);
  }

  lemma NilOnTheCrowd(candidates: seq<VictimCandidate>, ranked: seq<VictimCandidate>, needs: Resources)
    requires |candidates| > MAX_VICTIMS_PER_GANG && OneBusy(candidates) && needs.cpu > 0
    requires multiset(ranked) == multiset(candidates) && Ranked(ranked)
    ensures GreedyPrefix(ranked, needs, [])
    ensures forall victims :: GreedyPrefix(ranked, needs, victims) ==> |victims| == 0
  {
    BusyComesLast(candidates, ranked);
    IdleFreesNothing(ranked[..Cap(|ranked|)]);
  }

  lemma {:induction false} IdleFreesNothing(s: seq<VictimCandidate>)
    requires forall i :: 0 <= i < |s| ==> s[i].freed.cpu == 0
    ensures TotalFreed(s).cpu == 0
  {
    if |s| > 0 { IdleFreesNothing(s[..|s| - 1]); }
  }

  /** A single candidate that frees CPU is ranked last among its equals. */
  lemma BusyComesLast(candidates: seq<VictimCandidate>, ranked: seq<VictimCandidate>)
    requires |candidates| > 1 && OneBusy(candidates)
    requires multiset(ranked) == multiset(candidates) && Ranked(ranked)
    ensures |ranked| == |candidates|
    ensures forall i :: 0 <= i < |ranked| - 1 ==> ranked[i].freed.cpu == 0
  {
    assert |ranked| == |multiset(ranked)| == |candidates|;
    forall i | 0 <= i < |ranked| - 1 ensures ranked[i].freed.cpu == 0 {
      if ranked[i].freed.cpu > 0 { BusyTwice(candidates, ranked, i); }
    }
  }

  lemma BusyTwice(candidates: seq<VictimCandidate>, ranked: seq<VictimCandidate>, i: nat)
    requires |candidates| > 1 && OneBusy(candidates) && i < |ranked| - 1
    requires multiset(ranked) == multiset(candidates) && Ranked(ranked)
    ensures ranked[i].freed.cpu == 0
  {
    var busy, last := candidates[|candidates| - 1], |ranked| - 1;
    InPermutation(candidates, ranked, i);
    InPermutation(candidates, ranked, last);
    assert !CandidateLess(ranked[last], ranked[i]);
    if ranked[i].freed.cpu > 0 {
      assert ranked[i] == busy && ranked[last] == busy;
      TwiceInSequence(ranked, i, last);
      LastOnly(candidates);
    }
  }

  lemma InPermutation<T>(a: seq<T>, b: seq<T>, i: nat)
    requires multiset(a) == multiset(b) && i < |b|
    ensures exists j :: 0 <= j < |a| && a[j] == b[i]
  {
    assert b[i] in multiset(a);
  }

  lemma TwiceInSequence<T>(s: seq<T>, i: nat, j: nat)
    requires i < j < |s| && s[i] == s[j]
    ensures multiset(s)[s[i]] >= 2
  {
    var front, rest := s[..j], s[j..];
    assert s == front + rest;
    assert front[i] in multiset(front) && rest[0] in multiset(rest);
  }

  lemma LastOnly<T>(s: seq<T>)
    requires |s| > 0 && forall i :: 0 <= i < |s| - 1 ==> s[i] != s[|s| - 1]
    ensures multiset(s)[s[|s| - 1]] == 1
  {
    var front, last := s[..|s| - 1], s[|s| - 1];
    assert s == front + [last];
    assert last !in multiset(front);
  }

  // ---- Circles ----

  /** The pending gang pod, on some possible listing and nodes, names the other pod (placed on some node) as
      a victim. */
  ghost predicate Preempts(gang: Pod, victim: Pod) {
    exists all, nodes, ranked, victims, node ::
      Possible(gang, all) && Names(gang, all, nodes, ranked, victims) && CandidateOf(victim.(nodeName := node)) in victims
  }

  /** The profile does not rate the pod above what its queue and namespace say. */
  predicate TiersConsistent(p: Pod) { PreemptorTier(p) <= VictimTier(p) }

  lemma PreemptedIsBelow(gang: Pod, victim: Pod)
    requires Preempts(gang, victim)
    ensures Below(victim, gang) && !SameGang(gang, victim)
  {
    var all, nodes, ranked, victims, node :|
      Possible(gang, all) && Names(gang, all, nodes, ranked, victims) && CandidateOf(victim.(nodeName := node)) in victims;
    NamedIsBelow(gang, all, nodes, ranked, victims, victim.(nodeName := node));
    SameStanding(victim, victim.(nodeName := node));
  }

  lemma NamedIsBelow(
      gang: Pod, all: seq<Pod>, nodes: set<string>, ranked: seq<VictimCandidate>, victims: seq<VictimCandidate>, placed: Pod)
    requires Names(gang, all, nodes, ranked, victims) && CandidateOf(placed) in victims
    ensures Below(placed, gang) && !SameGang(gang, placed)
  {
    var i :| 0 <= i < |victims| && victims[i] == CandidateOf(placed);
    VictimsAreTheLowestEligible(gang, all, nodes, NeedsOf(gang), ranked, victims, i);
  }

  /** Each pod of the chain preempts the next, which comes back and preempts in its turn. */
  ghost predicate IsChain(chain: seq<Pod>) {
    forall i :: 0 <= i < |chain| - 1 ==> Preempts(chain[i], chain[i + 1])
  }

  lemma {:induction false} ChainsDescend(chain: seq<Pod>, k: nat)
    requires IsChain(chain) && 1 <= k < |chain|
    requires forall i :: 0 <= i < |chain| ==> TiersConsistent(chain[i])
    ensures Below(chain[k], chain[0])
  {
    assert Preempts(chain[k - 1], chain[k - 1 + 1]);
    PreemptedIsBelow(chain[k - 1], chain[k]);
    if k > 1 { ChainsDescend(chain, k - 1); }
  }

  /** No chain of preemptions returns to its start as long as no profile outranks the pod's own text. */
  lemma NoPreemptionCycle(chain: seq<Pod>)
    requires |chain| >= 2 && IsChain(chain)
    requires forall i :: 0 <= i < |chain| ==> TiersConsistent(chain[i])
    ensures chain[|chain| - 1] != chain[0]
  {
    ChainsDescend(chain, |chain| - 1);
  }

  /** Exactly then: an admitted gang pod and a like pod of another name and another gang can preempt each
      other if and only if the pod's profile outranks its text. */
  lemma CyclesExactlyWhenInconsistent(p: Pod)
    requires p.group.IsGang() && Admitted(p)
    ensures (exists name, group :: name != p.name && Preempts(p, p.(name := name, group := group))
                                   && Preempts(p.(name := name, group := group), p))
            <==> !TiersConsistent(p)
  {
    if name, group :| name != p.name && Preempts(p, p.(name := name, group := group)) {
      PreemptedIsBelow(p, p.(name := name, group := group));
      SameStanding(p, p.(name := name, group := group));
    }
    if !TiersConsistent(p) {
      var name, group := AnotherName(p.name, p.name), Member(AnotherName(p.group.name, p.group.name), p.group.minAvailable);
      var q := p.(name := name, group := group);
      SameStanding(p, q);
      PreemptsLookAlike(p, q);
      PreemptsLookAlike(q, p);
    }
  }

  /** A name that is neither of the two, and legal for a pod and for a label. */
  function AnotherName(a: string, b: string): (name: string)
    ensures name != a && name != b && name != ""
  {
    if a != "a" && b != "a" then "a" else if a != "b" && b != "b" then "b" else "c"
  }

  /** A pod beside the victim, of the same standing, that holds a little more than the gang's need. */
  function Neighbour(gang: Pod, node: string, name: string): Pod
    requires gang.group.IsGang()
  {
    var needs := NeedsOf(gang);
    gang.(name := name, group := Ungrouped, nodeName := node,
          containers := [Resources(needs.cpu + 1, needs.memory, needs.gpu)])
  }

  /** With its neighbour beside it, the look-alike is the first victim named. */
  lemma PreemptsLookAlike(gang: Pod, q: Pod)
    requires gang.group.IsGang() && q.group.IsGang() && gang.group.name != q.group.name && gang.name != q.name
    requires q.queue == gang.queue && q.namespace == gang.namespace && q.priority == gang.priority
    requires q.containers == gang.containers && VictimTier(gang) < PreemptorTier(gang) && Admitted(gang)
    ensures Preempts(gang, q)
  {
    var node := "node";
    var victim, other := q.(nodeName := node), Neighbour(gang, node, AnotherName(gang.name, q.name));
    TwoCandidates(gang, victim, other, node);
    var candidates := Candidates(gang, [victim, other], {node});
    var victims := FirstIsNamed(candidates, NeedsOf(gang));
    TwoArePossible(gang, victim, other);
    assert Names(gang, [victim, other], {node}, candidates, victims) && CandidateOf(victim) in victims;
  }

  lemma TwoArePossible(gang: Pod, victim: Pod, other: Pod)
    requires Admitted(victim) && Admitted(other)
    requires gang.name != victim.name && gang.name != other.name && victim.name != other.name
    ensures Possible(gang, [victim, other])
  {
  }

  lemma TwoCandidates(gang: Pod, victim: Pod, other: Pod, node: string)
    requires gang.group.IsGang() && VictimTier(gang) < PreemptorTier(gang) && node != ""
    requires victim.nodeName == node && victim.queue == gang.queue && victim.namespace == gang.namespace
    requires victim.group.IsGang() && victim.group.name != gang.group.name
    requires victim.priority == gang.priority && victim.containers == gang.containers
    requires other == Neighbour(gang, node, other.name)
    ensures var candidates := Candidates(gang, [victim, other], {node});
            && |candidates| == 2 && candidates[0] == CandidateOf(victim) && candidates[1] == CandidateOf(other)
            && candidates[0].tier == candidates[1].tier && candidates[0].priority == candidates[1].priority
            && candidates[0].freed.cpu < candidates[1].freed.cpu && AtLeast(candidates[1].freed, NeedsOf(gang))
  {
    SameStanding(gang, victim);
    SameStanding(gang, other);
    DemandOfOne(other.containers);
    AllEligible(gang, [victim, other], {node});
    assert NeedsOf(gang).cpu >= Demand(gang.containers).cpu;
  }

  lemma FirstIsNamed(candidates: seq<VictimCandidate>, needs: Resources) returns (victims: seq<VictimCandidate>)
    requires |candidates| == 2
    requires candidates[0].tier == candidates[1].tier && candidates[0].priority == candidates[1].priority
    requires candidates[0].freed.cpu < candidates[1].freed.cpu && AtLeast(candidates[1].freed, needs)
    ensures Ranked(candidates) && GreedyPrefix(candidates, needs, victims) && candidates[0] in victims
  {
    victims := if AtLeast(candidates[0].freed, needs) then candidates[..1] else candidates;
    TotalOfOne(candidates[..1]);
    TotalOfTwo(candidates);
    assert candidates[..Cap(2)] == candidates;
  }

  lemma TotalOfOne(s: seq<VictimCandidate>)
    requires |s| == 1
    ensures TotalFreed(s) == s[0].freed
  {
    assert |s[..|s| - 1]| == 0;
  }

  lemma TotalOfTwo(s: seq<VictimCandidate>)
    requires |s| == 2
    ensures AtLeast(TotalFreed(s), s[0].freed) && AtLeast(TotalFreed(s), s[1].freed)
  {
    TotalOfOne(s[..|s| - 1]);
  }
}
