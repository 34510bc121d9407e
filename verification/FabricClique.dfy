/** NVLink-clique filtering and locality scoring of gang members
    (pkg/plugins/networkfabric/networkfabric.go). Nodes and their labels are fixed; pods come, get
    placed through Filter, and go. */
module FabricClique {
  import opened Text

  /** `sliceDomain` is the nvlink-domain found in the node's GPU resource slices, empty if none. */
  datatype Node = Node(cliqueLabel: string, sliceDomain: string, fabricId: string, rackId: string, az: string)

  type Nodes = map<string, Node>

  /** `podGroup`, `requireClique` and `coLocate` are the pod's annotations, empty when absent. */
  datatype Pod = Pod(namespace: string, podGroup: string, requireClique: string, coLocate: string, nodeName: string)

  predicate RequiresCliqueFilter(p: Pod) {
    p.requireClique == "true" || ToLower(p.coLocate) == "strict"
  }

  /** Label first, resource slices second. */
  function GetNodeClique(n: Node): string {
    if n.cliqueLabel != "" then n.cliqueLabel else n.sliceDomain
  }

  predicate IsMember(p: Pod, ns: string, g: string) {
    p.nodeName != "" && p.namespace == ns && p.podGroup == g
  }

  /** The clique a placed pod's node bears; empty when the node is unknown or bears none. */
  function CliqueOf(p: Pod, nodes: Nodes): string {
    if p.nodeName in nodes then GetNodeClique(nodes[p.nodeName]) else ""
  }

  /** Clique filtering is asked for by the literal "true", or by "strict" in any case. */
  lemma StrictExactly(p: Pod)
    ensures RequiresCliqueFilter(p) <==> p.requireClique == "true" || SameLetters(p.coLocate, "strict")
  {
    ToLowerFolds(p.coLocate, "strict");
  }

  // ---- The two loops ----

  function Members(pods: seq<Pod>, ns: string, g: string): (r: seq<Pod>)
    ensures forall p :: p in r <==> p in pods && p.nodeName != "" && p.namespace == ns && p.podGroup == g
  {
    if |pods| == 0 then []
    else
      var front, last := Members(pods[..|pods| - 1], ns, g), pods[|pods| - 1];
      assert pods == pods[..|pods| - 1] + [last];
      if IsMember(last, ns, g) then front + [last] else front
  }

  /** A failed listing reads as no members. */
  method GetGangMemberPods(listing: Option<seq<Pod>>, ns: string, g: string) returns (members: seq<Pod>)
    ensures members == if g == "" || listing.None? then [] else Members(listing.value, ns, g)
  {
    members := [];
    if g == "" || listing.None? { return; }
    var pods := listing.value;
    for i := 0 to |pods|
      invariant members == Members(pods[..i], ns, g)
    {
      assert pods[..i + 1][..i] == pods[..i];
      if IsMember(pods[i], ns, g) { members := members + [pods[i]]; }
    }
    assert pods[..|pods|] == pods;
  }

  /** The first clique-bearing member decides. */
  function FirstClique(members: seq<Pod>, nodes: Nodes): string {
    if |members| == 0 then ""
    else if CliqueOf(members[0], nodes) != "" then CliqueOf(members[0], nodes)
    else FirstClique(members[1..], nodes)
  }

  method GetGangClique(listing: Option<seq<Pod>>, nodes: Nodes, ns: string, g: string) returns (clique: string)
    ensures clique == GangClique(listing, nodes, ns, g)
  {
    var members := GetGangMemberPods(listing, ns, g);
    for i := 0 to |members|
      invariant FirstClique(members, nodes) == FirstClique(members[i..], nodes)
    {
      if CliqueOf(members[i], nodes) != "" { return CliqueOf(members[i], nodes); }
    }
    return "";
  }

  function GangClique(listing: Option<seq<Pod>>, nodes: Nodes, ns: string, g: string): string {
    if g == "" || listing.None? then "" else FirstClique(Members(listing.value, ns, g), nodes)
  }

  /** Filter on a known node. */
  predicate Filter(p: Pod, node: Node, listing: Option<seq<Pod>>, nodes: Nodes) {
    if p.podGroup == "" || !RequiresCliqueFilter(p) then true
    else
      var existing := GangClique(listing, nodes, p.namespace, p.podGroup);
      if GetNodeClique(node) == "" then existing == ""
      else existing == "" || GetNodeClique(node) == existing
  }

  /** A node's label settles its clique whatever its slices say; without one the slices count as a label. */
  lemma SlicesOnlyWithoutLabel(p: Pod, node: Node, slices: string, listing: Option<seq<Pod>>, nodes: Nodes)
    ensures node.cliqueLabel != "" ==>
              Filter(p, node.(sliceDomain := slices), listing, nodes) == Filter(p, node, listing, nodes)
    ensures node.cliqueLabel == "" ==>
              Filter(p, node.(cliqueLabel := node.sliceDomain), listing, nodes) == Filter(p, node, listing, nodes)
  {
  }

  /** Pods that do not ask for it, and pods outside gangs, are never filtered. */
  lemma OthersAreNotFiltered(p: Pod, node: Node, listing: Option<seq<Pod>>, nodes: Nodes)
    requires p.podGroup == "" || (p.requireClique != "true" && !SameLetters(p.coLocate, "strict"))
    ensures Filter(p, node, listing, nodes)
  {
    StrictExactly(p);
  }

  // ---- Runs of creations, admitted placements and deletions ----

  type Cluster = map<string, Pod>

  /** `listing` is the order in which the lister showed the pods to Filter. */
  datatype Event = Create(uid: string, pod: Pod) | Place(uid: string, node: string, listing: seq<Pod>) | Remove(uid: string)

  /** The listing shows exactly the cluster's pods, in any order. */
  ghost predicate Lists(listing: seq<Pod>, c: Cluster) {
    && (forall u :: u in c ==> c[u] in listing)
    && forall p :: p in listing ==> exists u :: u in c && c[u] == p
  }

  ghost predicate Step(c: Cluster, e: Event, c': Cluster, nodes: Nodes) {
    match e
    case Create(u, p) => u !in c && p.nodeName == "" && c' == c[u := p]
    case Place(u, n, listing) =>
      && u in c && c[u].nodeName == "" && n != "" && n in nodes && Lists(listing, c)
      && Filter(c[u], nodes[n], Some(listing), nodes) && c' == c[u := c[u].(nodeName := n)]
    case Remove(u) => c' == c - {u}
  }

  ghost predicate IsRun(states: seq<Cluster>, events: seq<Event>, nodes: Nodes) {
    && |states| == |events| + 1
    && states[0] == map[]
    && forall i :: 0 <= i < |events| ==> Step(states[i], events[i], states[i + 1], nodes)
  }

  /** Pods created into the gang all ask for clique filtering. */
  ghost predicate StrictGang(events: seq<Event>, ns: string, g: string) {
    forall i :: 0 <= i < |events| && events[i].Create? && events[i].pod.namespace == ns && events[i].pod.podGroup == g ==>
      RequiresCliqueFilter(events[i].pod)
  }

  ghost predicate OneClique(c: Cluster, nodes: Nodes, ns: string, g: string) {
    forall u, v :: u in c && v in c && IsMember(c[u], ns, g) && IsMember(c[v], ns, g) ==>
      CliqueOf(c[u], nodes) == "" || CliqueOf(c[v], nodes) == "" || CliqueOf(c[u], nodes) == CliqueOf(c[v], nodes)
  }

  ghost predicate AllStrict(c: Cluster, ns: string, g: string) {
    forall u :: u in c && c[u].namespace == ns && c[u].podGroup == g ==> RequiresCliqueFilter(c[u])
  }

  lemma {:induction false} FirstCliqueIsSomeMembers(members: seq<Pod>, nodes: Nodes)
    ensures FirstClique(members, nodes) == "" <==> forall p :: p in members ==> CliqueOf(p, nodes) == ""
    ensures FirstClique(members, nodes) != "" ==> exists p :: p in members && CliqueOf(p, nodes) == FirstClique(members, nodes)
  {
    if |members| > 0 {
      FirstCliqueIsSomeMembers(members[1..], nodes);
      assert members == [members[0]] + members[1..];
    }
  }

  /** On a gang with one clique, getGangClique answers the clique of any clique-bearing member,
      whatever the listing order. */
  lemma GangCliqueIsAnyMembers(c: Cluster, nodes: Nodes, ns: string, g: string, listing: seq<Pod>, u: string)
    requires g != "" && OneClique(c, nodes, ns, g) && Lists(listing, c)
    requires u in c && IsMember(c[u], ns, g) && CliqueOf(c[u], nodes) != ""
    ensures GangClique(Some(listing), nodes, ns, g) == CliqueOf(c[u], nodes)
  {
    var members := Members(listing, ns, g);
    FirstCliqueIsSomeMembers(members, nodes);
    assert c[u] in members;
    var p :| p in members && CliqueOf(p, nodes) == FirstClique(members, nodes);
    var v :| v in c && c[v] == p;
  }

  lemma ListingOrderIsIrrelevant(c: Cluster, nodes: Nodes, ns: string, g: string, l1: seq<Pod>, l2: seq<Pod>)
    requires OneClique(c, nodes, ns, g) && Lists(l1, c) && Lists(l2, c)
    ensures GangClique(Some(l1), nodes, ns, g) == GangClique(Some(l2), nodes, ns, g)
  {
    if g != "" {
      if u :| u in c && IsMember(c[u], ns, g) && CliqueOf(c[u], nodes) != "" {
        GangCliqueIsAnyMembers(c, nodes, ns, g, l1, u);
        GangCliqueIsAnyMembers(c, nodes, ns, g, l2, u);
      } else {
        NoCliqueYet(c, nodes, ns, g, l1);
        NoCliqueYet(c, nodes, ns, g, l2);
      }
    }
  }

  lemma NoCliqueYet(c: Cluster, nodes: Nodes, ns: string, g: string, listing: seq<Pod>)
    requires Lists(listing, c)
    requires forall u :: u in c && IsMember(c[u], ns, g) ==> CliqueOf(c[u], nodes) == ""
    ensures GangClique(Some(listing), nodes, ns, g) == ""
  {
    FirstCliqueIsSomeMembers(Members(listing, ns, g), nodes);
  }

  /** What Filter decides, read off the cluster: a strict member may go to a node exactly when every
      clique-bearing member already shares that node's clique. */
  lemma FilterDecidesExactly(c: Cluster, nodes: Nodes, p: Pod, node: Node, listing: seq<Pod>)
    requires p.podGroup != "" && RequiresCliqueFilter(p)
    requires OneClique(c, nodes, p.namespace, p.podGroup) && Lists(listing, c)
    ensures Filter(p, node, Some(listing), nodes) <==>
              forall u :: u in c && IsMember(c[u], p.namespace, p.podGroup) && CliqueOf(c[u], nodes) != "" ==>
                CliqueOf(c[u], nodes) == GetNodeClique(node)
  {
    if u :| u in c && IsMember(c[u], p.namespace, p.podGroup) && CliqueOf(c[u], nodes) != "" {
      GangCliqueIsAnyMembers(c, nodes, p.namespace, p.podGroup, listing, u);
    } else {
      NoCliqueYet(c, nodes, p.namespace, p.podGroup, listing);
    }
  }

  /** Where every node is labelled: a strict member may go to a node exactly when every placed member's node,
      as far as known, carries the same label. */
  lemma FilterDecidesOnLabels(c: Cluster, nodes: Nodes, p: Pod, node: Node, listing: seq<Pod>)
    requires p.podGroup != "" && (p.requireClique == "true" || SameLetters(p.coLocate, "strict"))
    requires node.cliqueLabel != "" && forall n :: n in nodes ==> nodes[n].cliqueLabel != ""
    requires OneClique(c, nodes, p.namespace, p.podGroup) && Lists(listing, c)
    ensures Filter(p, node, Some(listing), nodes) <==>
              forall u :: u in c && c[u].nodeName != "" && c[u].namespace == p.namespace && c[u].podGroup == p.podGroup
                          && c[u].nodeName in nodes ==>
                nodes[c[u].nodeName].cliqueLabel == node.cliqueLabel
  {
    StrictExactly(p);
    FilterDecidesExactly(c, nodes, p, node, listing);
  }

  /** Once some member sits in a clique, the next placed member lands in that very clique. */
  lemma LaterMembersLandInTheClique(c: Cluster, e: Event, c': Cluster, nodes: Nodes, ns: string, g: string, u: string)
    requires g != "" && OneClique(c, nodes, ns, g) && AllStrict(c, ns, g) && Step(c, e, c', nodes)
    requires e.Place? && c[e.uid].namespace == ns && c[e.uid].podGroup == g
    requires u in c && IsMember(c[u], ns, g) && CliqueOf(c[u], nodes) != ""
    ensures CliqueOf(c'[e.uid], nodes) == CliqueOf(c[u], nodes)
  {
    GangCliqueIsAnyMembers(c, nodes, ns, g, e.listing, u);
  }

  lemma StepKeepsOneClique(c: Cluster, e: Event, c': Cluster, nodes: Nodes, ns: string, g: string)
    requires g != "" && OneClique(c, nodes, ns, g) && AllStrict(c, ns, g) && Step(c, e, c', nodes)
    ensures OneClique(c', nodes, ns, g)
  {
    if e.Place? && c[e.uid].namespace == ns && c[e.uid].podGroup == g {
      forall u | u in c && IsMember(c[u], ns, g) && CliqueOf(c[u], nodes) != ""
        ensures CliqueOf(c'[e.uid], nodes) == CliqueOf(c[u], nodes)
      {
        LaterMembersLandInTheClique(c, e, c', nodes, ns, g, u);
      }
    }
  }

  /** In every run, a gang whose members all require clique filtering has its clique-placed members in
      one clique. */
  lemma {:induction false} OneCliqueInEveryRun(
      states: seq<Cluster>, events: seq<Event>, nodes: Nodes, ns: string, g: string, i: nat)
    requires IsRun(states, events, nodes) && StrictGang(events, ns, g) && g != "" && i < |states|
    ensures OneClique(states[i], nodes, ns, g) && AllStrict(states[i], ns, g)
  {
    if i > 0 {
      OneCliqueInEveryRun(states, events, nodes, ns, g, i - 1);
      StepKeepsOneClique(states[i - 1], events[i - 1], states[i], nodes, ns, g);
      StepKeepsStrict(states[i - 1], events[i - 1], states[i], nodes, ns, g);
    }
  }

  lemma StepKeepsStrict(c: Cluster, e: Event, c': Cluster, nodes: Nodes, ns: string, g: string)
    requires AllStrict(c, ns, g) && Step(c, e, c', nodes)
    requires e.Create? && e.pod.namespace == ns && e.pod.podGroup == g ==> RequiresCliqueFilter(e.pod)
    ensures AllStrict(c', ns, g)
  {
  }

  // ---- Locality score ----

  const BONUS_SAME_CLIQUE := 40
  const BONUS_SAME_FABRIC_DOMAIN := 30
  const BONUS_SAME_RACK := 20
  const BONUS_SAME_AZ := 10

  datatype Level = CliqueLevel | FabricLevel | RackLevel | ZoneLevel

  function LabelAt(n: Node, level: Level): string {
    match level
    case CliqueLevel => n.cliqueLabel
    case FabricLevel => n.fabricId
    case RackLevel => n.rackId
    case ZoneLevel => n.az
  }

  /** Bonus when some member's node shares the candidate's value, as large a penalty when members carry
      other values only, nothing when there is nothing to compare. */
  function LevelScore(candidate: string, seen: set<string>, weight: int): int {
    if candidate == "" then 0
    else if candidate in seen then weight
    else if seen != {} then -weight
    else 0
  }

  /** A level counts for a node exactly when some member's node shares its value, and against it exactly when
      members carry values, but not this one; all levels together stay within 100 points either way, and
      reach them only by agreeing, or by disagreeing, on all four. */
  lemma LevelsDecide(clique: string, cliques: set<string>, fabric: string, fabrics: set<string>,
                     rack: string, racks: set<string>, az: string, azs: set<string>)
    ensures LevelScore(clique, cliques, BONUS_SAME_CLIQUE) > 0 <==> clique != "" && clique in cliques
    ensures LevelScore(clique, cliques, BONUS_SAME_CLIQUE) < 0 <==> clique != "" && clique !in cliques && cliques != {}
    ensures var total := LevelScore(clique, cliques, BONUS_SAME_CLIQUE) + LevelScore(fabric, fabrics, BONUS_SAME_FABRIC_DOMAIN)
                         + LevelScore(rack, racks, BONUS_SAME_RACK) + LevelScore(az, azs, BONUS_SAME_AZ);
            && -100 <= total <= 100
            && (total == 100 <==> Shares(clique, cliques) && Shares(fabric, fabrics) && Shares(rack, racks) && Shares(az, azs))
            && (total == -100 <==> Differs(clique, cliques) && Differs(fabric, fabrics) && Differs(rack, racks) && Differs(az, azs))
            && (Shares(clique, cliques) && (fabric == "" || fabrics == {}) ==> total >= 10)
  {
  }

  predicate Shares(value: string, seen: set<string>) { value != "" && value in seen }

  predicate Differs(value: string, seen: set<string>) { value != "" && value !in seen && seen != {} }

  /** The non-empty values a label takes over the members' known nodes. */
  ghost function ValuesAt(members: seq<Pod>, nodes: Nodes, level: Level): set<string> {
    set p | p in members && p.nodeName in nodes && LabelAt(nodes[p.nodeName], level) != "" :: LabelAt(nodes[p.nodeName], level)
  }

  function Bump(counts: map<string, nat>, value: string): map<string, nat> {
    if value == "" then counts
    else counts[value := 1 + if value in counts then counts[value] else 0]
  }

  /** Positive counts only, one for each value. */
  ghost predicate Counts(counts: map<string, nat>, values: set<string>) {
    counts.Keys == values && forall v :: v in counts ==> counts[v] > 0
  }

  lemma BumpCounts(counts: map<string, nat>, members: seq<Pod>, nodes: Nodes, level: Level, i: nat)
    requires i < |members| && Counts(counts, ValuesAt(members[..i], nodes, level)) && members[i].nodeName in nodes
    ensures Counts(Bump(counts, LabelAt(nodes[members[i].nodeName], level)), ValuesAt(members[..i + 1], nodes, level))
  {
    var value := LabelAt(nodes[members[i].nodeName], level);
    assert members[..i + 1] == members[..i] + [members[i]];
    assert ValuesAt(members[..i + 1], nodes, level) ==
           ValuesAt(members[..i], nodes, level) + if value == "" then {} else {value};
  }

  lemma UnknownNodeCountsNothing(members: seq<Pod>, nodes: Nodes, level: Level, i: nat)
    requires i < |members| && members[i].nodeName !in nodes
    ensures ValuesAt(members[..i + 1], nodes, level) == ValuesAt(members[..i], nodes, level)
  {
    assert members[..i + 1] == members[..i] + [members[i]];
  }

  /** One level of the scoring, read off the counts. */
  function LevelDelta(candidate: string, counts: map<string, nat>, weight: int): int {
    if candidate == "" then 0
    else if candidate in counts && counts[candidate] > 0 then weight
    else if |counts| > 0 then -weight
    else 0
  }

  lemma CountsDecideTheLevel(candidate: string, counts: map<string, nat>, values: set<string>, weight: int)
    requires Counts(counts, values)
    ensures LevelDelta(candidate, counts, weight) == LevelScore(candidate, values, weight)
  {
  }

  datatype Tally = Tally(cliques: map<string, nat>, fabrics: map<string, nat>, racks: map<string, nat>, azs: map<string, nat>)

  ghost predicate Tallies(t: Tally, members: seq<Pod>, nodes: Nodes) {
    && Counts(t.cliques, ValuesAt(members, nodes, CliqueLevel)) && Counts(t.fabrics, ValuesAt(members, nodes, FabricLevel))
    && Counts(t.racks, ValuesAt(members, nodes, RackLevel)) && Counts(t.azs, ValuesAt(members, nodes, ZoneLevel))
  }

  function AddNode(t: Tally, n: Node): Tally {
    Tally(Bump(t.cliques, n.cliqueLabel), Bump(t.fabrics, n.fabricId), Bump(t.racks, n.rackId), Bump(t.azs, n.az))
  }

  lemma TallyOneMore(t: Tally, members: seq<Pod>, nodes: Nodes, i: nat)
    requires i < |members| && Tallies(t, members[..i], nodes)
    ensures if members[i].nodeName in nodes
            then Tallies(AddNode(t, nodes[members[i].nodeName]), members[..i + 1], nodes)
            else Tallies(t, members[..i + 1], nodes)
  {
    if members[i].nodeName in nodes {
      BumpCounts(t.cliques, members, nodes, CliqueLevel, i);
      BumpCounts(t.fabrics, members, nodes, FabricLevel, i);
      BumpCounts(t.racks, members, nodes, RackLevel, i);
      BumpCounts(t.azs, members, nodes, ZoneLevel, i);
    } else {
      UnknownNodeCountsNothing(members, nodes, CliqueLevel, i);
      UnknownNodeCountsNothing(members, nodes, FabricLevel, i);
      UnknownNodeCountsNothing(members, nodes, RackLevel, i);
      UnknownNodeCountsNothing(members, nodes, ZoneLevel, i);
    }
  }

  /** Each level of the score looks only at which values the members' nodes carry. */
  method CalculateLocalityScore(members: seq<Pod>, clique: string, fabricId: string, rackId: string, az: string, nodes: Nodes)
    returns (score: int)
    ensures score == LevelScore(clique, ValuesAt(members, nodes, CliqueLevel), BONUS_SAME_CLIQUE)
                     + LevelScore(fabricId, ValuesAt(members, nodes, FabricLevel), BONUS_SAME_FABRIC_DOMAIN)
                     + LevelScore(rackId, ValuesAt(members, nodes, RackLevel), BONUS_SAME_RACK)
                     + LevelScore(az, ValuesAt(members, nodes, ZoneLevel), BONUS_SAME_AZ)
  {
    var t := Tally(map[], map[], map[], map[]);
    for i := 0 to |members|
      invariant Tallies(t, members[..i], nodes)
    {
      TallyOneMore(t, members, nodes, i);
      if members[i].nodeName !in nodes { continue; }
      t := AddNode(t, nodes[members[i].nodeName]);
    }
    assert members[..|members|] == members;
    CountsDecideTheLevel(clique, t.cliques, ValuesAt(members, nodes, CliqueLevel), BONUS_SAME_CLIQUE);
    CountsDecideTheLevel(fabricId, t.fabrics, ValuesAt(members, nodes, FabricLevel), BONUS_SAME_FABRIC_DOMAIN);
    CountsDecideTheLevel(rackId, t.racks, ValuesAt(members, nodes, RackLevel), BONUS_SAME_RACK);
    CountsDecideTheLevel(az, t.azs, ValuesAt(members, nodes, ZoneLevel), BONUS_SAME_AZ);
    score := LevelDelta(clique, t.cliques, BONUS_SAME_CLIQUE);
    score := score + LevelDelta(fabricId, t.fabrics, BONUS_SAME_FABRIC_DOMAIN);
    score := score + LevelDelta(rackId, t.racks, BONUS_SAME_RACK);
    score := score + LevelDelta(az, t.azs, BONUS_SAME_AZ);
  }

  /** In every reachable state, a node that passes Filter for a strict gang is never charged the
      cross-clique penalty by the score. */
  lemma FilteredNodesNeverCrossCliques(
      c: Cluster, nodes: Nodes, ns: string, g: string, p: Pod, n: string, listing: seq<Pod>)
    requires g != "" && OneClique(c, nodes, ns, g) && Lists(listing, c)
    requires p.namespace == ns && p.podGroup == g && RequiresCliqueFilter(p)
    requires n in nodes && Filter(p, nodes[n], Some(listing), nodes)
    ensures LevelScore(GetNodeClique(nodes[n]), ValuesAt(Members(listing, ns, g), nodes, CliqueLevel), BONUS_SAME_CLIQUE) >= 0
  {
    var level := CliqueLevel;
    var seen := ValuesAt(Members(listing, ns, g), nodes, level);
    if v :| v in seen {
      var q :| q in Members(listing, ns, g) && q.nodeName in nodes && LabelAt(nodes[q.nodeName], level) == v && v != "";
      var u :| u in c && c[u] == q;
      GangCliqueIsAnyMembers(c, nodes, ns, g, listing, u);
      assert GetNodeClique(nodes[n]) == "" || GetNodeClique(nodes[n]) in seen;
    }
  }
}
