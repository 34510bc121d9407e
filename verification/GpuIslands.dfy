/** GPU islands: detection from node capacity and listed pods, the GPU and tenant filter, and the
    fragmentation score (pkg/plugins/resourcefragmentation/fragmentationscore.go). Tenant tier and
    workload type come from the profile classifier and are fields of the pod. */
module GpuIslands {
  import opened Text

  const BONUS_COMPLETE_ISLAND := 100
  const BONUS_PERFECT_FIT := 90
  const PENALTY_TENANT_MISMATCH := 10
  const PENALTY_FRAGMENT_LARGE_ISLAND := 20
  const PENALTY_FRAGMENT_PRISTINE_ISLAND := 0
  const LARGE_ISLAND_THRESHOLD := 4
  const SMALL_REQUEST_THRESHOLD := 2

  datatype Workload = Training | Batch | Inference | Service | Interactive | OtherWorkload

  /** GPU requests per container; a container that names no GPUs requests none. */
  datatype Pod = Pod(containers: seq<nat>, nodeName: string, tier: string, workload: Workload)

  /** `capacity` 0 means no GPUs; `reservedTier` is empty when the label is missing. */
  datatype Node = Node(capacity: nat, topology: string, pristineLabel: Option<string>, reservedTier: string)

  datatype Island = Island(total: nat, inUse: nat, quality: int, pristine: bool, reservedTier: string) {
    function Available(): int { total - inUse }
  }

  // ---- Counting requests ----

  function Sum(requests: seq<nat>): nat {
    if |requests| == 0 then 0 else Sum(requests[..|requests| - 1]) + requests[|requests| - 1]
  }

  function Gpus(p: Pod): nat { Sum(p.containers) }

  function GpusOn(p: Pod, node: string): nat { if p.nodeName == node then Gpus(p) else 0 }

  function Allocated(pods: seq<Pod>, node: string): nat {
    if |pods| == 0 then 0 else Allocated(pods[..|pods| - 1], node) + GpusOn(pods[|pods| - 1], node)
  }

  method GetGPURequest(p: Pod) returns (total: nat)
    ensures total == Gpus(p)
  {
    total := 0;
    for i := 0 to |p.containers|
      invariant total == Sum(p.containers[..i])
    {
      assert p.containers[..i + 1][..i] == p.containers[..i];
      total := total + p.containers[i];
    }
    assert p.containers[..|p.containers|] == p.containers;
  }

  function Quality(topology: string): int {
    if topology == "nvswitch" then 100 else if topology == "nvlink" then 80 else if topology == "pcie" then 50 else 30
  }

  /** The pristine label, when present, overrides the count. */
  function IslandOf(name: string, node: Node, pods: seq<Pod>): Option<Island> {
    if node.capacity == 0 then None
    else
      var inUse := Allocated(pods, name);
      var pristine := if node.pristineLabel.Some? then node.pristineLabel.value == "true" else inUse == 0;
      Some(Island(node.capacity, inUse, Quality(node.topology), pristine, node.reservedTier))
  }

  /** A failed listing counts nothing as allocated. */
  method DetectGPUIsland(name: string, node: Node, listing: Option<seq<Pod>>) returns (island: Option<Island>)
    ensures island == IslandOf(name, node, if listing.Some? then listing.value else [])
  {
    if node.capacity == 0 { return None; }
    var pods := if listing.Some? then listing.value else [];
    var inUse := 0;
    for i := 0 to |pods|
      invariant inUse == Allocated(pods[..i], name)
    {
      assert pods[..i + 1][..i] == pods[..i];
      if pods[i].nodeName == name {
        var requested := GetGPURequest(pods[i]);
        inUse := inUse + requested;
      }
    }
    assert pods[..|pods|] == pods;
    var pristine := inUse == 0;
    if node.pristineLabel.Some? { pristine := node.pristineLabel.value == "true"; }
    island := Some(Island(node.capacity, inUse, Quality(node.topology), pristine, node.reservedTier));
  }

  // ---- Filter and Score ----

  /** Unrecognised tiers rank 0. */
  function TierRank(tier: string): nat {
    if tier == "gold" then 3 else if tier == "silver" then 2 else if tier == "bronze" || tier == "unknown" then 1 else 0
  }

  predicate TenantMismatch(p: Pod, island: Island) {
    island.reservedTier != "" && island.reservedTier != "none" && TierRank(p.tier) < TierRank(island.reservedTier)
  }

  predicate Filter(p: Pod, island: Option<Island>) {
    if Gpus(p) == 0 then true
    else island.Some? && island.value.Available() >= Gpus(p) && !TenantMismatch(p, island.value)
  }

  /** With GPUs enough, an island reserved for gold takes gold only, one for silver gold and silver, one for
      bronze or "unknown" all four tiers; any other reservation, and none, keeps nobody out. */
  lemma ReservedIslandsAdmitExactly(p: Pod, island: Island)
    requires Gpus(p) > 0 && island.Available() >= Gpus(p)
    ensures island.reservedTier == "gold" ==> (Filter(p, Some(island)) <==> p.tier == "gold")
    ensures island.reservedTier == "silver" ==> (Filter(p, Some(island)) <==> p.tier == "gold" || p.tier == "silver")
    ensures island.reservedTier == "bronze" || island.reservedTier == "unknown" ==>
              (Filter(p, Some(island)) <==> p.tier == "gold" || p.tier == "silver" || p.tier == "bronze" || p.tier == "unknown")
    ensures island.reservedTier !in {"gold", "silver", "bronze", "unknown"} ==> Filter(p, Some(island))
  {
  }

  function WorkloadPenalty(p: Pod, island: Island): int
    requires island.total > 0
  {
    if (p.workload.Training? || p.workload.Batch?) && island.quality >= 80 && island.total >= 8
       && Gpus(p) < island.total / 2 && !island.pristine then PENALTY_FRAGMENT_LARGE_ISLAND + 10
    else if p.workload.Interactive? && island.inUse * 100 / island.total > 75 then 15
    else 0
  }

  /** `cpuScore` is the CPU/memory score used where GPUs play no part. */
  function Score(p: Pod, island: Option<Island>, cpuScore: int): int
    requires island.Some? ==> island.value.total > 0
  {
    if island.None? || Gpus(p) == 0 then cpuScore
    else
      var i, requested := island.value, Gpus(p);
      if TenantMismatch(p, i) then PENALTY_TENANT_MISMATCH
      else if WorkloadPenalty(p, i) > 0 then WorkloadPenalty(p, i)
      else if i.pristine && i.total >= LARGE_ISLAND_THRESHOLD && requested <= SMALL_REQUEST_THRESHOLD
      then PENALTY_FRAGMENT_PRISTINE_ISLAND
      else if i.Available() == requested then BONUS_PERFECT_FIT
      else if !i.pristine && i.Available() >= requested then BONUS_COMPLETE_ISLAND - (i.Available() - requested)
      else if i.total >= LARGE_ISLAND_THRESHOLD && requested < i.total / 2
      then PENALTY_FRAGMENT_LARGE_ISLAND + i.quality / 10
      else i.inUse * 100 / i.total
  }

  /** A used island whose workload penalty does not apply. */
  predicate PlainUsed(p: Pod, island: Island) {
    island.total > 0 && !island.pristine && Filter(p, Some(island)) && WorkloadPenalty(p, island) == 0
  }

  /** Among such islands the one with fewer spare GPUs scores no lower, unless it is an exact fit and the
      other leaves one to nine spare: an exact fit earns 90, less than those. */
  lemma TighterFitScoresHigherExactly(p: Pod, tight: Island, loose: Island, cpuScore: int)
    requires Gpus(p) > 0 && PlainUsed(p, tight) && PlainUsed(p, loose)
    requires tight.Available() < loose.Available()
    ensures Score(p, Some(tight), cpuScore) >= Score(p, Some(loose), cpuScore) <==>
              !(tight.Available() == Gpus(p) && loose.Available() - Gpus(p) < 10)
    ensures tight.Available() == Gpus(p) ==> Score(p, Some(tight), cpuScore) == 90
    ensures Score(p, Some(loose), cpuScore) + (loose.Available() - Gpus(p)) == 100
  {
  }

  /** Training and batch pods are kept from breaking into a used island of eight or more GPUs joined by
      NVSwitch or NVLink with requests below half of it; interactive ones from islands more than three
      quarters taken; and nobody else from anything. */
  lemma PenaltiesOnTheNode(p: Pod, name: string, node: Node, pods: seq<Pod>)
    requires node.capacity > 0 && node.pristineLabel.None?
    ensures var penalty, inUse := WorkloadPenalty(p, IslandOf(name, node, pods).value), Allocated(pods, name);
            && (penalty == 30 <==>
                  && (p.workload == Training || p.workload == Batch) && inUse > 0
                  && (node.topology == "nvswitch" || node.topology == "nvlink")
                  && node.capacity >= 8 && Gpus(p) < node.capacity / 2)
            && (penalty == 15 <==> p.workload == Interactive && 100 * inUse >= 76 * node.capacity)
            && (penalty != 30 && penalty != 15 ==> penalty == 0)
  {
    if p.workload == Interactive { PercentAbove(Allocated(pods, name), node.capacity); }
  }

  lemma QuotientBounds(a: nat, b: nat)
    requires b > 0
    ensures (a / b) * b <= a < (a / b + 1) * b
  {
  }

  lemma AtLeastAsMany(m: nat, n: nat, b: nat)
    requires m <= n
    ensures m * b <= n * b
  {
  }

  lemma PercentAbove(part: nat, whole: nat)
    requires whole > 0
    ensures part * 100 / whole > 75 <==> 100 * part >= 76 * whole
  {
    var q, hundredfold := part * 100 / whole, part * 100;
    QuotientBounds(hundredfold, whole);
    if q > 75 {
      AtLeastAsMany(76, q, whole);
    } else {
      AtLeastAsMany(q + 1, 76, whole);
    }
  }

  /** Where GPUs play no part the CPU score stands, and a tier that the reservation keeps out gets 10. */
  lemma ScoreBesideGpus(p: Pod, island: Option<Island>, cpuScore: int)
    requires island.Some? ==> island.value.total > 0
    ensures island.None? || Gpus(p) == 0 ==> Score(p, island, cpuScore) == cpuScore
    ensures Gpus(p) > 0 && island.Some? && island.value.Available() >= Gpus(p) && !Filter(p, island) ==>
              Score(p, island, cpuScore) == 10
  {
  }

  /** An island labelled pristine that a request fits neither exactly, nor as a small or a minor part of a large
      one, scores the percentage in use, rounded down. */
  lemma OtherPristineIslandsByUse(p: Pod, island: Island, cpuScore: int)
    requires Gpus(p) > 0 && island.total > 0 && island.pristine && Filter(p, Some(island))
    requires WorkloadPenalty(p, island) == 0 && island.Available() > Gpus(p)
    requires island.total < 4 || (Gpus(p) > 2 && Gpus(p) >= island.total / 2)
    ensures var score := Score(p, Some(island), cpuScore);
            score * island.total <= 100 * island.inUse < (score + 1) * island.total
  {
    QuotientBounds(island.inUse * 100, island.total);
  }

  /** An untouched island taken by a larger request for less than half of it scores by its wiring alone. */
  lemma UntouchedIslandsByWiring(p: Pod, name: string, node: Node, pods: seq<Pod>, cpuScore: int)
    requires node.pristineLabel.None? && Allocated(pods, name) == 0
    requires SMALL_REQUEST_THRESHOLD < Gpus(p) < node.capacity / 2 && Filter(p, IslandOf(name, node, pods))
    ensures Score(p, IslandOf(name, node, pods), cpuScore) ==
            if node.topology == "nvswitch" then 30 else if node.topology == "nvlink" then 28
            else if node.topology == "pcie" then 25 else 23
  {
  }

  /** A used island that passes Filter scores above zero exactly when a workload penalty applies or
      fewer than 100 GPUs would stay spare. */
  lemma UsedIslandScore(p: Pod, island: Island, cpuScore: int)
    requires Gpus(p) > 0 && island.total > 0 && !island.pristine && Filter(p, Some(island))
    ensures Score(p, Some(island), cpuScore) > 0 <==>
              WorkloadPenalty(p, island) > 0 || island.Available() - Gpus(p) < 100
  {
  }

  /** A large untouched island scores zero for a small request, whatever the workload. */
  lemma PristineIslandScore(p: Pod, name: string, node: Node, pods: seq<Pod>, cpuScore: int)
    requires 0 < Gpus(p) <= SMALL_REQUEST_THRESHOLD && node.pristineLabel.None? && node.capacity >= LARGE_ISLAND_THRESHOLD
    requires Allocated(pods, name) == 0 && Filter(p, IslandOf(name, node, pods))
    ensures Score(p, IslandOf(name, node, pods), cpuScore) == 0
  {
  }

  /** Without pristine labels, a request of at most two GPUs ranks a used island strictly above every
      large untouched one, whatever the workload, as long as fewer than 100 GPUs stay spare on it; beyond
      that only a workload penalty, being positive, still does. */
  lemma SmallRequestsPreferUsedIslands(
      p: Pod, pods: seq<Pod>, used: string, usedNode: Node, untouched: string, untouchedNode: Node, cpuScore: int)
    requires 0 < Gpus(p) <= SMALL_REQUEST_THRESHOLD
    requires usedNode.pristineLabel.None? && untouchedNode.pristineLabel.None?
    requires Allocated(pods, used) > 0 && Allocated(pods, untouched) == 0
    requires untouchedNode.capacity >= LARGE_ISLAND_THRESHOLD
    requires Filter(p, IslandOf(used, usedNode, pods)) && Filter(p, IslandOf(untouched, untouchedNode, pods))
    ensures var island := IslandOf(used, usedNode, pods);
            Score(p, island, cpuScore) > Score(p, IslandOf(untouched, untouchedNode, pods), cpuScore) <==>
              WorkloadPenalty(p, island.value) > 0 || island.value.Available() - Gpus(p) < 100
  {
    PristineIslandScore(p, untouched, untouchedNode, pods, cpuScore);
    UsedIslandScore(p, IslandOf(used, usedNode, pods).value, cpuScore);
  }

  // ---- Runs of creations, admitted placements and deletions ----

  datatype Event = Create(pod: Pod) | Place(index: nat, node: string) | Remove(index: nat)

  ghost predicate Step(pods: seq<Pod>, e: Event, pods': seq<Pod>, nodes: map<string, Node>) {
    match e
    case Create(p) => p.nodeName == "" && pods' == pods + [p]
    case Place(i, n) =>
      && i < |pods| && pods[i].nodeName == "" && n != "" && n in nodes
      && Filter(pods[i], IslandOf(n, nodes[n], pods)) && pods' == pods[i := pods[i].(nodeName := n)]
    case Remove(i) => i < |pods| && pods' == pods[..i] + pods[i + 1..]
  }

  ghost predicate IsRun(states: seq<seq<Pod>>, events: seq<Event>, nodes: map<string, Node>) {
    && |states| == |events| + 1
    && |states[0]| == 0
    && forall i :: 0 <= i < |events| ==> Step(states[i], events[i], states[i + 1], nodes)
  }

  /** No node's GPU requests exceed its capacity. */
  ghost predicate NoOvercommit(pods: seq<Pod>, nodes: map<string, Node>) {
    forall n :: n in nodes && n != "" ==> Allocated(pods, n) <= nodes[n].capacity
  }

  /** No reserved node hosts a GPU pod of a lower tier. */
  ghost predicate TiersRespected(pods: seq<Pod>, nodes: map<string, Node>) {
    forall i :: 0 <= i < |pods| && pods[i].nodeName in nodes && pods[i].nodeName != "" && Gpus(pods[i]) > 0 ==>
      TierRank(pods[i].tier) >= TierRank(nodes[pods[i].nodeName].reservedTier)
  }

  lemma {:induction false} AllocatedAfterUpdate(pods: seq<Pod>, i: nat, p: Pod, node: string)
    requires i < |pods|
    ensures Allocated(pods[i := p], node) == Allocated(pods, node) - GpusOn(pods[i], node) + GpusOn(p, node)
    decreases |pods|
  {
    var front := pods[..|pods| - 1];
    if i == |pods| - 1 {
      assert pods[i := p][..|pods| - 1] == front;
    } else {
      AllocatedAfterUpdate(front, i, p, node);
      assert pods[i := p][..|pods| - 1] == front[i := p];
    }
  }

  lemma {:induction false} AllocatedAfterRemoval(pods: seq<Pod>, i: nat, node: string)
    requires i < |pods|
    ensures Allocated(pods[..i] + pods[i + 1..], node) == Allocated(pods, node) - GpusOn(pods[i], node)
    decreases |pods|
  {
    var front := pods[..|pods| - 1];
    var rest := pods[..i] + pods[i + 1..];
    if i == |pods| - 1 {
      assert rest == front;
    } else {
      AllocatedAfterRemoval(front, i, node);
      assert rest[..|rest| - 1] == front[..i] + front[i + 1..];
    }
  }

  /** What Filter decides: a GPU pod may go to a node exactly when the node still holds its requests
      afterwards and the pod's tier is no lower than the one the node is reserved for. */
  lemma FilterDecidesExactly(pods: seq<Pod>, i: nat, n: string, node: Node)
    requires i < |pods| && n != "" && pods[i].nodeName == "" && Gpus(pods[i]) > 0
    ensures Filter(pods[i], IslandOf(n, node, pods)) <==>
              && Allocated(pods[i := pods[i].(nodeName := n)], n) <= node.capacity
              && TierRank(pods[i].tier) >= TierRank(node.reservedTier)
  {
    AllocatedAfterUpdate(pods, i, pods[i].(nodeName := n), n);
  }

  lemma StepKeepsNoOvercommit(pods: seq<Pod>, e: Event, pods': seq<Pod>, nodes: map<string, Node>)
    requires NoOvercommit(pods, nodes) && Step(pods, e, pods', nodes)
    ensures NoOvercommit(pods', nodes)
  {
    forall n | n in nodes && n != "" ensures Allocated(pods', n) <= nodes[n].capacity {
      match e
      case Create(p) => assert pods'[..|pods'| - 1] == pods;
      case Place(i, _) => AllocatedAfterUpdate(pods, i, pods[i].(nodeName := e.node), n);
      case Remove(i) => AllocatedAfterRemoval(pods, i, n);
    }
  }

  lemma StepKeepsTiersRespected(pods: seq<Pod>, e: Event, pods': seq<Pod>, nodes: map<string, Node>)
    requires TiersRespected(pods, nodes) && Step(pods, e, pods', nodes)
    ensures TiersRespected(pods', nodes)
  {
  }

  /** In every run of placements admitted by Filter and of deletions, no node is overcommitted and no
      reserved node hosts a GPU pod of a lower tier. */
  lemma {:induction false} IslandsStaySound(states: seq<seq<Pod>>, events: seq<Event>, nodes: map<string, Node>, i: nat)
    requires IsRun(states, events, nodes) && i < |states|
    ensures NoOvercommit(states[i], nodes) && TiersRespected(states[i], nodes)
  {
    if i > 0 {
      IslandsStaySound(states, events, nodes, i - 1);
      StepKeepsNoOvercommit(states[i - 1], events[i - 1], states[i], nodes);
      StepKeepsTiersRespected(states[i - 1], events[i - 1], states[i], nodes);
    }
  }
}
