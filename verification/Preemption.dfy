/** Gang preemption: which pods may be victims, how they are ranked, and the greedy choice of a
    prefix that frees what the gang needs (pkg/plugins/preemption/gang_preemption.go). */
module Preemption {
  import opened Collections
  import opened Text
  import opened PodGroups

  const MAX_VICTIMS_PER_GANG: nat := 50

  /** CPU in millicores, memory in bytes, GPUs; quantities are never negative. */
  datatype Resources = Resources(cpu: nat, memory: nat, gpu: nat)

  function Plus(a: Resources, b: Resources): Resources {
    Resources(a.cpu + b.cpu, a.memory + b.memory, a.gpu + b.gpu)
  }

  predicate AtLeast(a: Resources, b: Resources) {
    a.cpu >= b.cpu && a.memory >= b.memory && a.gpu >= b.gpu
  }

  /** `queue` is the Kueue queue-name label if there is one; `profileTier` is what the profile
      classifier recorded for the pod's scheduling cycle, if it ran. */
  datatype Pod = Pod(
    name: string, namespace: string, group: Membership, nodeName: string, priority: Option<int>,
    queue: Option<string>, profileTier: Option<string>, containers: seq<Resources>)

  function PriorityOf(p: Pod): int {
    if p.priority.Some? then p.priority.value else 0
  }

  // ---- Tiers ----

  datatype Tier = Gold | Silver | Bronze

  /** A tier name in any case; whatever is not gold or silver ranks as bronze. */
  function ParseTier(name: string): Tier {
    var t := ToLower(name);
    if t == "gold" then Gold else if t == "silver" then Silver else Bronze
  }

  function GetTierPriority(tier: Tier): int {
    match tier
    case Gold => 3
    case Silver => 2
    case Bronze => 1
  }

  /** The tier a queue or namespace name mentions, if any. */
  function MentionedTier(name: string): Option<Tier> {
    var t := ToLower(name);
    if Contains(t, "gold") then Some(Gold) else if Contains(t, "silver") then Some(Silver) else None
  }

  /** Queue name first, namespace second. */
  function GetTenantTierFromPod(p: Pod): Tier {
    var byQueue := if p.queue.Some? then MentionedTier(p.queue.value) else None;
    if byQueue.Some? then byQueue.value
    else match MentionedTier(p.namespace)
      case Some(tier) => tier
      case None => Bronze
  }

  function GetTenantTierFromProfile(p: Pod): Tier {
    if p.profileTier.Some? then ParseTier(p.profileTier.value) else Bronze
  }

  /** A pod's standing as a victim: tier from queue or namespace text. */
  function VictimTier(p: Pod): int { GetTierPriority(GetTenantTierFromPod(p)) }

  /** A pod's standing as a preemptor: tier from its profile. */
  function PreemptorTier(p: Pod): int { GetTierPriority(GetTenantTierFromProfile(p)) }

  ghost predicate QueueMentions(p: Pod, word: string) { p.queue.Some? && Mentions(p.queue.value, word) }

  /** Gold text ranks above silver and silver above everything else; the queue decides if it mentions either
      in any case, else the namespace does, and gold is looked for first. */
  lemma VictimTierByText(p: Pod)
    ensures 1 <= VictimTier(p) <= 3
    ensures var undecided := !QueueMentions(p, "gold") && !QueueMentions(p, "silver");
            && (VictimTier(p) == 3 <==> QueueMentions(p, "gold") || (undecided && Mentions(p.namespace, "gold")))
            && (VictimTier(p) == 1 <==> undecided && !Mentions(p.namespace, "gold") && !Mentions(p.namespace, "silver"))
  {
    if p.queue.Some? {
      MentionsExactly(p.queue.value, "gold");
      MentionsExactly(p.queue.value, "silver");
    }
    MentionsExactly(p.namespace, "gold");
    MentionsExactly(p.namespace, "silver");
  }

  /** The same scale for the preemptor, by the letters of its profile's tier. */
  lemma PreemptorTierByProfile(p: Pod)
    ensures 1 <= PreemptorTier(p) <= 3
    ensures PreemptorTier(p) == 3 <==> p.profileTier.Some? && SameLetters(p.profileTier.value, "gold")
    ensures PreemptorTier(p) == 2 <==> p.profileTier.Some? && SameLetters(p.profileTier.value, "silver")
  {
    if p.profileTier.Some? {
      ToLowerFolds(p.profileTier.value, "gold");
      ToLowerFolds(p.profileTier.value, "silver");
    }
  }

  // ---- Candidates ----

  predicate SameGang(gang: Pod, victim: Pod) {
    && victim.namespace == gang.namespace
    && victim.group.Member? && victim.group.name != ""
    && gang.group.Member? && victim.group.name == gang.group.name
  }

  predicate IsCandidate(gang: Pod, victim: Pod, nodes: set<string>) {
    && victim.nodeName != "" && victim.nodeName in nodes
    && !SameGang(gang, victim)
    && PreemptorTier(gang) >= VictimTier(victim)
    && !(PreemptorTier(gang) == VictimTier(victim) && PriorityOf(victim) >= PriorityOf(gang))
  }

  /** Who may be preempted: whoever is placed on a known node, is no member of the gang itself, and is of a
      lower tier, or of the same tier and a lower priority. */
  lemma EligibleExactly(gang: Pod, victim: Pod, nodes: set<string>)
    requires gang.group.IsGang()
    ensures IsCandidate(gang, victim, nodes) <==>
              && victim.nodeName != "" && victim.nodeName in nodes
              && !(victim.namespace == gang.namespace && victim.group.GroupName() == gang.group.name)
              && Below(victim, gang)
  {
  }

  /** Within a tier the given priorities decide, strictly; a missing one stands for 0 on either side. */
  lemma PrioritiesDecide(gang: Pod, victim: Pod)
    requires VictimTier(victim) == PreemptorTier(gang)
    ensures victim.priority.Some? && gang.priority.Some? ==>
              (Below(victim, gang) <==> victim.priority.value < gang.priority.value)
    ensures victim.priority.None? && gang.priority.Some? ==> (Below(victim, gang) <==> 0 < gang.priority.value)
    ensures victim.priority.Some? && gang.priority.None? ==> (Below(victim, gang) <==> victim.priority.value < 0)
    ensures victim.priority.None? && gang.priority.None? ==> !Below(victim, gang)
  {
  }

  /** What the pod's containers request together. */
  function Demand(containers: seq<Resources>): Resources {
    if |containers| == 0 then Resources(0, 0, 0)
    else Plus(Demand(containers[..|containers| - 1]), containers[|containers| - 1])
  }

  lemma {:induction false} DemandAdds(a: seq<Resources>, b: seq<Resources>)
    ensures Demand(a + b) == Plus(Demand(a), Demand(b))
    decreases |b|
  {
    if |b| == 0 {
      assert a + b == a;
    } else {
      var front, last := b[..|b| - 1], b[|b| - 1];
      DemandAdds(a, front);
      DemandSnoc(a + front, last);
      assert a + b == (a + front) + [last];
    }
  }

  lemma DemandSnoc(front: seq<Resources>, last: Resources)
    ensures Demand(front + [last]) == Plus(Demand(front), last)
  {
    assert (front + [last])[..|front|] == front;
  }

  lemma DemandOfOne(containers: seq<Resources>)
    requires |containers| == 1
    ensures Demand(containers) == containers[0]
  {
    assert |containers[..|containers| - 1]| == 0;
  }

  /** It is the sum over the containers, resource by resource. */
  lemma DemandIsTheSum(a: seq<Resources>, b: seq<Resources>)
    ensures Demand(a + b).cpu == Demand(a).cpu + Demand(b).cpu
    ensures Demand(a + b).memory == Demand(a).memory + Demand(b).memory
    ensures Demand(a + b).gpu == Demand(a).gpu + Demand(b).gpu
  {
    DemandAdds(a, b);
  }

  datatype VictimCandidate = VictimCandidate(pod: Pod, tier: int, priority: int, freed: Resources)

  function CandidateOf(p: Pod): VictimCandidate {
    VictimCandidate(p, VictimTier(p), PriorityOf(p), Demand(p.containers))
  }

  /** What preempting all of them gives back. */
  function TotalFreed(chosen: seq<VictimCandidate>): Resources {
    if |chosen| == 0 then Resources(0, 0, 0)
    else Plus(TotalFreed(chosen[..|chosen| - 1]), chosen[|chosen| - 1].freed)
  }

  /** Every member is taken to need what this one asks for. */
  function CalculateGangResourceNeeds(p: Pod, minAvailable: nat): Resources {
    var one := Demand(p.containers);
    Resources(one.cpu * minAvailable, one.memory * minAvailable, one.gpu * minAvailable)
  }

  /** The need is what as many copies of the pod would give back if preempted. */
  lemma {:induction false} NeedsAreThoseOfAllMembers(p: Pod, n: nat)
    ensures TotalFreed(seq(n, _ => CandidateOf(p))) == CalculateGangResourceNeeds(p, n)
  {
    if n > 0 {
      NeedsAreThoseOfAllMembers(p, n - 1);
      var members := seq(n, _ => CandidateOf(p));
      assert members[..n - 1] == seq(n - 1, _ => CandidateOf(p));
      OneMoreMember(Demand(p.containers), n);
    }
  }

  lemma OneMoreMember(one: Resources, n: nat)
    requires n > 0
    ensures one.cpu * (n - 1) + one.cpu == one.cpu * n
    ensures one.memory * (n - 1) + one.memory == one.memory * n
    ensures one.gpu * (n - 1) + one.gpu == one.gpu * n
  {
  }

  // ---- Ranking ----

  /** The comparator handed to sort.Slice: tier, then priority, then CPU. */
  predicate CandidateLess(a: VictimCandidate, b: VictimCandidate) {
    if a.tier != b.tier then a.tier < b.tier
    else if a.priority != b.priority then a.priority < b.priority
    else a.freed.cpu < b.freed.cpu
  }

  /** In comparator order; ties may stand either way round, as sort.Slice leaves them. */
  ghost predicate Ranked(s: seq<VictimCandidate>) {
    forall i, j :: 0 <= i < j < |s| ==> !CandidateLess(s[j], s[i])
  }

  /** Stands in for sort.Slice; callers rely on its contract only. */
  method SortCandidates(candidates: seq<VictimCandidate>) returns (ranked: seq<VictimCandidate>)
    ensures multiset(ranked) == multiset(candidates) && Ranked(ranked)
  {
    ranked := [];
    for i := 0 to |candidates|
      invariant multiset(ranked) == multiset(candidates[..i]) && Ranked(ranked)
    {
      assert candidates[..i + 1] == candidates[..i] + [candidates[i]];
      ranked := InsertRanked(ranked, candidates[i]);
    }
    assert candidates[..|candidates|] == candidates;
  }

  method InsertRanked(s: seq<VictimCandidate>, c: VictimCandidate) returns (r: seq<VictimCandidate>)
    requires Ranked(s)
    ensures multiset(r) == multiset(s) + multiset{c} && Ranked(r)
  {
    var k := |s|;
    while k > 0 && CandidateLess(c, s[k - 1])
      invariant 0 <= k <= |s|
      invariant forall j :: k <= j < |s| ==> CandidateLess(c, s[j])
    {
      k := k - 1;
    }
    r := s[..k] + [c] + s[k..];
    assert s == s[..k] + s[k..];
    InsertionKeepsRank(s, c, k);
  }

  lemma InsertionKeepsRank(s: seq<VictimCandidate>, c: VictimCandidate, k: nat)
    requires Ranked(s) && k <= |s|
    requires k > 0 ==> !CandidateLess(c, s[k - 1])
    requires forall j :: k <= j < |s| ==> CandidateLess(c, s[j])
    ensures Ranked(s[..k] + [c] + s[k..])
  {
  }

  // ---- The greedy choice ----

  ghost function Candidates(gang: Pod, all: seq<Pod>, nodes: set<string>): seq<VictimCandidate> {
    if |all| == 0 then []
    else
      var front := Candidates(gang, all[..|all| - 1], nodes);
      var last := all[|all| - 1];
      if IsCandidate(gang, last, nodes) then front + [CandidateOf(last)] else front
  }

  function Cap(n: nat): (cap: nat)
    ensures cap <= n && cap <= MAX_VICTIMS_PER_GANG && (cap == n || cap == MAX_VICTIMS_PER_GANG)
  {
    if n < MAX_VICTIMS_PER_GANG then n else MAX_VICTIMS_PER_GANG
  }

  /** The outcome on a ranked list of candidates; the empty list stands for Go's nil. */
  ghost predicate GreedyPrefix(ranked: seq<VictimCandidate>, needs: Resources, victims: seq<VictimCandidate>) {
    && victims <= ranked && |victims| <= MAX_VICTIMS_PER_GANG
    && (|victims| > 0 ==> AtLeast(TotalFreed(victims), needs))
    && (forall k :: 1 <= k < |victims| ==> !AtLeast(TotalFreed(ranked[..k]), needs))
    && (|victims| == 0 <==> |ranked| == 0 || !AtLeast(TotalFreed(ranked[..Cap(|ranked|)]), needs))
  }

  /** The shortest non-empty prefix of the ranked candidates that covers the need, at most 50 long;
      nil without candidates, on a failed listing, or when the first 50 together fall short. */
  method FindPreemptionVictims(gang: Pod, needs: Resources, listing: Option<seq<Pod>>, nodes: set<string>)
    returns (victims: seq<VictimCandidate>, ghost ranked: seq<VictimCandidate>)
    ensures listing.None? ==> |victims| == 0
    ensures listing.Some? ==>
              && multiset(ranked) == multiset(Candidates(gang, listing.value, nodes)) && Ranked(ranked)
              && GreedyPrefix(ranked, needs, victims)
  {
    if listing.None? { return [], []; }
    var all := listing.value;
    var candidates: seq<VictimCandidate> := [];
    for i := 0 to |all|
      invariant candidates == Candidates(gang, all[..i], nodes)
    {
      assert all[..i + 1][..i] == all[..i];
      if IsCandidate(gang, all[i], nodes) { candidates := candidates + [CandidateOf(all[i])]; }
    }
    assert all[..|all|] == all;
    var sorted := SortCandidates(candidates);
    victims := TakeUntilCovered(sorted, needs);
    ranked := sorted;
  }

  /** The loop over the sorted candidates, with its running totals. */
  method TakeUntilCovered(sorted: seq<VictimCandidate>, needs: Resources) returns (victims: seq<VictimCandidate>)
    ensures GreedyPrefix(sorted, needs, victims)
  {
    if |sorted| == 0 { return []; }
    victims := [];
    var freed := Resources(0, 0, 0);
    var i := 0;
    while i < |sorted|
      invariant 0 <= i <= |sorted| && i <= MAX_VICTIMS_PER_GANG
      invariant victims == sorted[..i] && freed == TotalFreed(victims)
      invariant forall k :: 1 <= k <= i ==> !AtLeast(TotalFreed(sorted[..k]), needs)
    {
      if i >= MAX_VICTIMS_PER_GANG { break; }
      assert sorted[..i + 1][..i] == sorted[..i];
      victims := victims + [sorted[i]];
      freed := Plus(freed, sorted[i].freed);
      if AtLeast(freed, needs) {
        MoreVictimsFreeMore(sorted, i + 1, Cap(|sorted|), needs);
        return;
      }
      i := i + 1;
    }
    if !AtLeast(freed, needs) { return []; }
  }

  lemma {:induction false} MoreVictimsFreeMore(s: seq<VictimCandidate>, i: nat, j: nat, needs: Resources)
    requires i <= j <= |s| && AtLeast(TotalFreed(s[..i]), needs)
    ensures AtLeast(TotalFreed(s[..j]), needs)
    decreases j
  {
    if i < j {
      MoreVictimsFreeMore(s, i, j - 1, needs);
      assert s[..j][..j - 1] == s[..j - 1];
    }
  }

  // ---- Who gets preempted ----

  lemma {:induction false} CandidatesAreEligible(gang: Pod, all: seq<Pod>, nodes: set<string>, c: VictimCandidate)
    ensures c in Candidates(gang, all, nodes) <==>
              c.pod in all && IsCandidate(gang, c.pod, nodes) && c == CandidateOf(c.pod)
  {
    if |all| > 0 {
      var front, last := all[..|all| - 1], all[|all| - 1];
      CandidatesAreEligible(gang, front, nodes, c);
      assert all == front + [last];
    }
  }

  /** Strictly below in (tier, priority), each tier read the way its role reads it. */
  predicate Below(victim: Pod, gang: Pod) {
    || VictimTier(victim) < PreemptorTier(gang)
    || (VictimTier(victim) == PreemptorTier(gang) && PriorityOf(victim) < PriorityOf(gang))
  }

  /** Every victim sits on a known node, outside the gang, strictly below it; and whoever is spared is of a
      higher tier, or of the same and a higher priority, or of the same two and holds no less CPU. */
  lemma VictimsAreTheLowestEligible(
      gang: Pod, all: seq<Pod>, nodes: set<string>, needs: Resources,
      ranked: seq<VictimCandidate>, victims: seq<VictimCandidate>, i: nat)
    requires multiset(ranked) == multiset(Candidates(gang, all, nodes)) && Ranked(ranked)
    requires GreedyPrefix(ranked, needs, victims) && i < |victims|
    ensures var v := victims[i].pod; v in all && v.nodeName in nodes && !SameGang(gang, v) && Below(v, gang)
    ensures forall j :: |victims| <= j < |ranked| ==> TakenBefore(victims[i].pod, ranked[j].pod)
  {
    assert victims[i] == ranked[i] && victims[i] in multiset(ranked);
    CandidatesAreEligible(gang, all, nodes, victims[i]);
    forall j | |victims| <= j < |ranked| ensures TakenBefore(victims[i].pod, ranked[j].pod) {
      assert ranked[j] in multiset(ranked);
      CandidatesAreEligible(gang, all, nodes, ranked[j]);
    }
  }

  /** The lower tier goes first, then the lower priority, then whoever holds less CPU. */
  ghost predicate TakenBefore(victim: Pod, spared: Pod) {
    || VictimTier(victim) < VictimTier(spared)
    || (VictimTier(victim) == VictimTier(spared) && PriorityOf(victim) < PriorityOf(spared))
    || (VictimTier(victim) == VictimTier(spared) && PriorityOf(victim) == PriorityOf(spared)
        && Demand(victim.containers).cpu <= Demand(spared.containers).cpu)
  }

  lemma FreedSnoc(front: seq<VictimCandidate>, last: VictimCandidate)
    ensures TotalFreed(front + [last]) == Plus(TotalFreed(front), last.freed)
  {
    assert (front + [last])[..|front|] == front;
  }

  /** What the victims free is the sum of what their containers request, resource by resource. */
  lemma FreedIsTheSum(a: seq<VictimCandidate>, p: Pod)
    ensures TotalFreed(a + [CandidateOf(p)]).cpu == TotalFreed(a).cpu + Demand(p.containers).cpu
    ensures TotalFreed(a + [CandidateOf(p)]).memory == TotalFreed(a).memory + Demand(p.containers).memory
    ensures TotalFreed(a + [CandidateOf(p)]).gpu == TotalFreed(a).gpu + Demand(p.containers).gpu
  {
    FreedSnoc(a, CandidateOf(p));
  }

  /** The victims free enough of every resource, and without the last of them some resource would fall short. */
  lemma VictimsCoverTheNeed(ranked: seq<VictimCandidate>, needs: Resources, victims: seq<VictimCandidate>)
    requires GreedyPrefix(ranked, needs, victims) && |victims| > 0
    ensures var freed := TotalFreed(victims); freed.cpu >= needs.cpu && freed.memory >= needs.memory && freed.gpu >= needs.gpu
    ensures forall k :: 1 <= k < |victims| ==>
              var fewer := TotalFreed(ranked[..k]);
              fewer.cpu < needs.cpu || fewer.memory < needs.memory || fewer.gpu < needs.gpu
  {
  }

  // ---- When is nil the right answer? ----

  lemma {:induction false} SubsetFreesLess(a: seq<VictimCandidate>, b: seq<VictimCandidate>)
    requires multiset(a) <= multiset(b)
    ensures AtLeast(TotalFreed(b), TotalFreed(a))
    decreases |a|
  {
    if |a| > 0 {
      var i := MatchLast(a, b);
      SubsetFreesLess(a[..|a| - 1], b[..i] + b[i + 1..]);
      RemoveOne(b, i);
    }
  }

  lemma {:induction false} RemoveOne(b: seq<VictimCandidate>, i: nat)
    requires i < |b|
    ensures TotalFreed(b) == Plus(TotalFreed(b[..i] + b[i + 1..]), b[i].freed)
    decreases |b|
  {
    var front, last := b[..|b| - 1], b[|b| - 1];
    var rest := b[..i] + b[i + 1..];
    if i == |b| - 1 {
      assert rest == front;
    } else {
      RemoveOne(front, i);
      assert rest[..|rest| - 1] == front[..i] + front[i + 1..];
    }
  }

  /** With at most 50 candidates the greedy choice is complete: nil means no set of candidates at all
      would free enough. */
  lemma NilIsFinalUpToTheCap(
      ranked: seq<VictimCandidate>, needs: Resources, victims: seq<VictimCandidate>, others: seq<VictimCandidate>)
    requires GreedyPrefix(ranked, needs, victims) && |ranked| <= 50
    requires |others| > 0 && multiset(others) <= multiset(ranked)
    ensures AtLeast(TotalFreed(others), needs) ==> |victims| > 0
  {
    if AtLeast(TotalFreed(others), needs) {
      assert others[0] in multiset(ranked);
      SubsetFreesLess(others, ranked);
      assert ranked[..Cap(|ranked|)] == ranked;
    }
  }

  /** On a nil answer, some candidates would free enough exactly when all of them together do. */
  lemma NilIsWrongExactlyWhen(ranked: seq<VictimCandidate>, needs: Resources)
    requires |ranked| > 0 && GreedyPrefix(ranked, needs, [])
    ensures (exists others :: |others| > 0 && multiset(others) <= multiset(ranked) && AtLeast(TotalFreed(others), needs))
            <==> AtLeast(TotalFreed(ranked), needs)
  {
    forall others: seq<VictimCandidate> | multiset(others) <= multiset(ranked)
      ensures AtLeast(TotalFreed(ranked), TotalFreed(others))
    {
      SubsetFreesLess(others, ranked);
    }
  }

  // ---- Nominating a node ----

  /** CPU the victims on one node give back. */
  function FreedOn(victims: seq<Pod>, node: string): nat {
    if |victims| == 0 then 0
    else FreedOn(victims[..|victims| - 1], node)
         + if victims[|victims| - 1].nodeName == node then Demand(victims[|victims| - 1].containers).cpu else 0
  }

  ghost predicate Accumulated(freed: map<string, nat>, victims: seq<Pod>) {
    && (forall n :: n in freed ==> n != "" && freed[n] == FreedOn(victims, n))
    && forall n :: n != "" && n !in freed ==> FreedOn(victims, n) == 0
  }

  /** The node gives back the most CPU; the empty name means no victim frees any. */
  ghost predicate Nominated(victims: seq<Pod>, best: string) {
    && (best != "" ==> FreedOn(victims, best) > 0)
    && forall n :: n != "" && n != best ==> FreedOn(victims, n) <= if best == "" then 0 else FreedOn(victims, best)
  }

  function PodsOf(chosen: seq<VictimCandidate>): (pods: seq<Pod>)
    ensures |pods| == |chosen| && forall i :: 0 <= i < |pods| ==> pods[i] == chosen[i].pod
  {
    seq(|chosen|, i requires 0 <= i < |chosen| => chosen[i].pod)
  }

  method SelectNominatedNode(victims: seq<Pod>) returns (best: string)
    ensures Nominated(victims, best)
  {
    var freed: map<string, nat> := map[];
    for i := 0 to |victims|
      invariant Accumulated(freed, victims[..i])
    {
      var v := victims[i];
      assert victims[..i + 1][..i] == victims[..i];
      if v.nodeName != "" {
        var sofar := if v.nodeName in freed then freed[v.nodeName] else 0;
        freed := freed[v.nodeName := sofar + Demand(v.containers).cpu];
      }
    }
    assert victims[..|victims|] == victims;
    best := "";
    var maxFreed := 0;
    var todo := freed.Keys;
    while todo != {}
      invariant todo <= freed.Keys
      invariant if best == "" then maxFreed == 0 else best in freed && freed[best] == maxFreed > 0
      invariant forall n :: n in freed && n !in todo ==> freed[n] <= maxFreed
      decreases |todo|
    {
      var n :| n in todo;
      if freed[n] > maxFreed { best, maxFreed := n, freed[n]; }
      todo := todo - {n};
    }
  }
}
