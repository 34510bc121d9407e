/** The Permit / Unreserve waiting protocol (pkg/plugins/coscheduling/coscheduling.go).
    The framework's table of waiting pods is a map by UID. A pod that is allowed or rejected leaves it,
    a pod told to wait enters it; the lister is a sequence of pods, and each list call may fail. */
module Permit {
  import opened Collections
  import opened Text
  import opened PodGroups

  datatype Phase = NoPhase | Pending | Running | Finished

  datatype Pod = Pod(
    uid: string, name: string, namespace: Namespace, labels: Labels, phase: Phase, terminating: bool)

  type WaitingPods = map<string, Pod>

  datatype Decision = Success | Wait

  /** Membership as the Allow and Reject loops test it. */
  predicate InGang(p: Pod, ns: string, g: string) {
    p.namespace == ns && GetPodGroupLabels(p.labels).GroupName() == g
  }

  /** Membership as the waiting count tests it: either name label will do. */
  predicate CountedAsWaiting(p: Pod, ns: string, g: string) {
    p.namespace == ns && (Labelled(p, NameKey, g) || Labelled(p, LegacyNameKey, g))
  }

  predicate Labelled(p: Pod, key: LabelKey, g: string) {
    key in p.labels && p.labels[key] == g
  }

  /** Every waiting member is counted, under any mix of new and legacy labels. */
  lemma MembersAreCounted(p: Pod, ns: string, g: string)
    requires g != "" && InGang(p, ns, g)
    ensures CountedAsWaiting(p, ns, g)
  {
  }

  /** The waiting count looks at the namespace and at both name labels, whatever the minimum says. */
  lemma CountedOnLabels(p: Pod, ns: string, g: string)
    requires g != ""
    ensures CountedAsWaiting(p, ns, g) <==>
              p.namespace == ns && (Lookup(p.labels, NameKey) == g || Lookup(p.labels, LegacyNameKey) == g)
  {
  }

  ghost function Gang(w: WaitingPods, ns: string, g: string): set<string> {
    set u | u in w && InGang(w[u], ns, g)
  }

  ghost function Counted(w: WaitingPods, ns: string, g: string): set<string> {
    set u | u in w && CountedAsWaiting(w[u], ns, g)
  }

  // ---- The lister side ----

  /** A pod the "running" count takes in; note that pending and phase-less pods are among them. */
  predicate Active(p: Pod, exclude: string) {
    (exclude == "" || p.name != exclude) && !p.terminating && p.phase != Finished
  }

  /** `Pods(namespace).List(selector)` for one label. */
  function Select(pods: seq<Pod>, ns: string, key: LabelKey, g: string): (r: seq<Pod>)
    ensures forall p :: p in r <==> p in pods && p.namespace == ns && Labelled(p, key, g)
  {
    if pods == [] then []
    else
      var rest := Select(pods[1..], ns, key, g);
      if pods[0].namespace == ns && Labelled(pods[0], key, g) then [pods[0]] + rest else rest
  }

  /** The lister and which of the two list calls fails. */
  datatype Lister = Lister(pods: seq<Pod>, newFails: bool, legacyFails: bool)

  /** New label first; the legacy label when that call fails or finds nothing; nothing when both fail. */
  function Listed(l: Lister, ns: string, g: string): seq<Pod> {
    var byNew := Select(l.pods, ns, NameKey, g);
    if !l.newFails && byNew != [] then byNew
    else if l.legacyFails then []
    else Select(l.pods, ns, LegacyNameKey, g)
  }

  /** A pod of the namespace carries the group under this key. */
  ghost predicate Carries(p: Pod, ns: string, key: LabelKey, g: string) {
    p.namespace == ns && key in p.labels && p.labels[key] == g
  }

  /** Exactly these are listed: the carriers of the new label, if that call works and there are any; else,
      if the second call works, the carriers of the legacy label. */
  lemma ListedExactly(l: Lister, ns: string, g: string, p: Pod)
    ensures var preferNew := !l.newFails && exists q :: q in l.pods && Carries(q, ns, NameKey, g);
            p in Listed(l, ns, g) <==>
              && p in l.pods
              && if preferNew then Carries(p, ns, NameKey, g) else !l.legacyFails && Carries(p, ns, LegacyNameKey, g)
  {
    var byNew := Select(l.pods, ns, NameKey, g);
    if byNew != [] {
      assert byNew[0] in byNew;
      assert Carries(byNew[0], ns, NameKey, g);
    }
    if q :| q in l.pods && Carries(q, ns, NameKey, g) { assert q in byNew; }
  }

  ghost function ActiveNames(pods: seq<Pod>, exclude: string): set<string> {
    set p | p in pods && Active(p, exclude) :: p.name
  }

  /** Names are unique within a namespace. */
  ghost predicate UniqueNames(pods: seq<Pod>) {
    forall i, j :: 0 <= i < j < |pods| && pods[i].namespace == pods[j].namespace ==> pods[i].name != pods[j].name
  }

  lemma {:induction false} SelectKeepsUniqueNames(pods: seq<Pod>, ns: string, key: LabelKey, g: string)
    requires UniqueNames(pods)
    ensures UniqueNames(Select(pods, ns, key, g))
  {
    if pods != [] {
      SelectKeepsUniqueNames(pods[1..], ns, key, g);
      assert forall p :: p in pods[1..] && p.namespace == pods[0].namespace ==> p.name != pods[0].name;
    }
  }

  lemma ActiveNamesOneMore(pods: seq<Pod>, i: nat, exclude: string)
    requires i < |pods| && UniqueNames(pods)
    requires forall j :: 0 <= j < |pods| ==> pods[j].namespace == pods[0].namespace
    ensures |ActiveNames(pods[..i + 1], exclude)| ==
            |ActiveNames(pods[..i], exclude)| + if Active(pods[i], exclude) then 1 else 0
  {
    var before, p := ActiveNames(pods[..i], exclude), pods[i];
    assert pods[..i + 1] == pods[..i] + [p];
    assert ActiveNames(pods[..i + 1], exclude) == before + if Active(p, exclude) then {p.name} else {};
    assert p.name !in before;
  }

  /** The counting loop over the listed pods counts distinct members. */
  method CalculateRunningPodsExcluding(l: Lister, ns: string, g: string, exclude: string) returns (running: nat)
    requires UniqueNames(l.pods)
    ensures running == |ActiveNames(Listed(l, ns, g), exclude)|
  {
    var pods := Listed(l, ns, g);
    SelectKeepsUniqueNames(l.pods, ns, NameKey, g);
    SelectKeepsUniqueNames(l.pods, ns, LegacyNameKey, g);
    assert forall j :: 0 <= j < |pods| ==> pods[j] in pods && pods[j].namespace == ns;
    running := CountActive(pods, exclude);
  }

  method CountActive(pods: seq<Pod>, exclude: string) returns (running: nat)
    requires UniqueNames(pods)
    requires forall j :: 0 <= j < |pods| ==> pods[j].namespace == pods[0].namespace
    ensures running == |ActiveNames(pods, exclude)|
  {
    running := 0;
    for i := 0 to |pods|
      invariant running == |ActiveNames(pods[..i], exclude)|
    {
      ActiveNamesOneMore(pods, i, exclude);
      if Active(pods[i], exclude) { running := running + 1; }
    }
    assert pods[..|pods|] == pods;
  }

  /** A listed pod is counted exactly if it is another one, not terminating, and running, pending or still
      without a phase. */
  lemma CountedExactly(l: Lister, ns: string, g: string, exclude: string, name: string)
    requires exclude != ""
    ensures name in ActiveNames(Listed(l, ns, g), exclude) <==>
              exists q :: q in Listed(l, ns, g) && q.name == name && name != exclude && !q.terminating
                          && (q.phase == Running || q.phase == Pending || q.phase == NoPhase)
  {
  }

  // ---- Legacy labels ----

  /** The same pod under the legacy keys in place of the new ones. */
  ghost predicate LegacyTwin(modern: Pod, legacy: Pod) {
    && legacy == modern.(labels := legacy.labels)
    && modern.labels.Keys !! {LegacyNameKey, LegacyMinKey} && legacy.labels.Keys !! {NameKey, MinKey}
    && (NameKey in modern.labels <==> LegacyNameKey in legacy.labels)
    && Lookup(modern.labels, NameKey) == Lookup(legacy.labels, LegacyNameKey)
    && Lookup(modern.labels, MinKey) == Lookup(legacy.labels, LegacyMinKey)
  }

  ghost predicate LegacyTwins(modern: Lister, legacy: Lister) {
    && |modern.pods| == |legacy.pods|
    && forall i :: 0 <= i < |modern.pods| ==> LegacyTwin(modern.pods[i], legacy.pods[i])
  }

  lemma TwinsAreListedAlike(modern: Lister, legacy: Lister, ns: string, g: string, i: nat)
    requires LegacyTwins(modern, legacy) && !modern.newFails && !legacy.legacyFails && i < |modern.pods|
    ensures modern.pods[i] in Listed(modern, ns, g) <==> legacy.pods[i] in Listed(legacy, ns, g)
  {
    var p, q := modern.pods[i], legacy.pods[i];
    ListedExactly(modern, ns, g, p);
    ListedExactly(legacy, ns, g, q);
    assert Carries(p, ns, NameKey, g) <==> Carries(q, ns, LegacyNameKey, g);
    forall r | r in legacy.pods ensures !Carries(r, ns, NameKey, g) {
      var j :| 0 <= j < |legacy.pods| && legacy.pods[j] == r;
      assert LegacyTwin(modern.pods[j], r);
    }
  }

  /** A gang labelled the legacy way is counted like one labelled the new way, whether or not the first,
      fruitless, list call works. */
  lemma LegacyGangCountsAlike(modern: Lister, legacy: Lister, ns: string, g: string, exclude: string)
    requires LegacyTwins(modern, legacy) && !modern.newFails && !legacy.legacyFails
    ensures ActiveNames(Listed(modern, ns, g), exclude) == ActiveNames(Listed(legacy, ns, g), exclude)
  {
    forall p | p in Listed(modern, ns, g) && Active(p, exclude)
      ensures p.name in ActiveNames(Listed(legacy, ns, g), exclude)
    {
      ListedExactly(modern, ns, g, p);
      var i :| 0 <= i < |modern.pods| && modern.pods[i] == p;
      TwinsAreListedAlike(modern, legacy, ns, g, i);
      assert LegacyTwin(p, legacy.pods[i]) && Active(legacy.pods[i], exclude);
    }
    forall q | q in Listed(legacy, ns, g) && Active(q, exclude)
      ensures q.name in ActiveNames(Listed(modern, ns, g), exclude)
    {
      ListedExactly(legacy, ns, g, q);
      var i :| 0 <= i < |legacy.pods| && legacy.pods[i] == q;
      TwinsAreListedAlike(modern, legacy, ns, g, i);
      assert LegacyTwin(modern.pods[i], q) && Active(modern.pods[i], exclude);
    }
  }

  /** And gets the same answer from Permit, over the same table of waiting pods. */
  lemma LegacyGangIsDecidedAlike(
      modern: Lister, legacy: Lister, p: Pod, q: Pod, w: WaitingPods, d: Decision, d': Decision,
      w1: WaitingPods, w2: WaitingPods)
    requires LegacyTwins(modern, legacy) && !modern.newFails && !legacy.legacyFails && LegacyTwin(p, q)
    requires var g := GetPodGroupLabels(p.labels).GroupName();
             && PermitStep(w, p, |ActiveNames(Listed(modern, p.namespace, g), p.name)|, d, w1)
             && PermitStep(w, q, |ActiveNames(Listed(legacy, p.namespace, g), p.name)|, d', w2)
    ensures d == d' && (d == Success ==> w1 == w2) && (d == Wait ==> w1 - {p.uid} == w2 - {p.uid})
  {
    LegacyLabelsAreEquivalent(p.labels, q.labels);
    var g := GetPodGroupLabels(p.labels).GroupName();
    LegacyGangCountsAlike(modern, legacy, p.namespace, g, p.name);
    DecidedAlike(w, p, q, |ActiveNames(Listed(modern, p.namespace, g), p.name)|, d, d', w1, w2);
  }

  lemma DecidedAlike(w: WaitingPods, p: Pod, q: Pod, running: nat, d: Decision, d': Decision, w1: WaitingPods, w2: WaitingPods)
    requires GetPodGroupLabels(p.labels) == GetPodGroupLabels(q.labels) && q == p.(labels := q.labels)
    requires PermitStep(w, p, running, d, w1) && PermitStep(w, q, running, d', w2)
    ensures d == d' && (d == Success ==> w1 == w2) && (d == Wait ==> w1 - {p.uid} == w2 - {p.uid})
  {
  }

  /** Membership, as release and rejection test it, read off the labels. */
  lemma InGangOnLabels(p: Pod, ns: string, g: string)
    requires g != ""
    ensures var minimum := Atoi(if Lookup(p.labels, MinKey) != "" then Lookup(p.labels, MinKey) else Lookup(p.labels, LegacyMinKey));
            InGang(p, ns, g) <==>
              && p.namespace == ns && minimum.Some? && minimum.value >= 1
              && g == if Lookup(p.labels, NameKey) != "" then Lookup(p.labels, NameKey) else Lookup(p.labels, LegacyNameKey)
  {
    GangsWantTwoOrMore(p.labels);
  }

  // ---- The protocol ----

  ghost function Released(w: WaitingPods, ns: string, g: string): WaitingPods {
    w - Gang(w, ns, g)
  }

  ghost predicate PermitStep(w: WaitingPods, p: Pod, running: nat, d: Decision, w': WaitingPods) {
    var m := GetPodGroupLabels(p.labels);
    if !m.IsGang() then d == Success && w' == w
    else if running + |Counted(w, p.namespace, m.name)| + 1 < m.minAvailable
    then d == Wait && w' == w[p.uid := p]
    else d == Success && w' == Released(w, p.namespace, m.name)
  }

  ghost function UnreserveStep(w: WaitingPods, p: Pod): WaitingPods {
    var g := GetPodGroupLabels(p.labels).GroupName();
    if g == "" then w else Released(w, p.namespace, g)
  }

  /** The iteration over the waiting pods, in any order. */
  method CountWaiting(w: WaitingPods, ns: string, g: string) returns (n: nat)
    ensures n == |Counted(w, ns, g)|
  {
    ghost var counted := Counted(w, ns, g);
    n := 0;
    var todo := w.Keys;
    assert counted * todo == counted;
    while todo != {}
      invariant todo <= w.Keys && n + |counted * todo| == |counted|
      decreases |todo|
    {
      var u :| u in todo;
      var counts := CountedAsWaiting(w[u], ns, g);
      assert counts == (u in counted);
      OneLess(counted, todo, u);
      if counts { n := n + 1; }
      todo := todo - {u};
    }
  }

  class Framework {
    var waiting: WaitingPods

    constructor ()
      ensures waiting == map[]
    {
      waiting := map[];
    }

    method CalculateWaitingPods(ns: string, g: string) returns (n: nat)
      ensures n == |Counted(waiting, ns, g)|
    {
      n := CountWaiting(waiting, ns, g);
    }

    /** The loop that allows, or rejects, every waiting pod of a gang. */
    method ReleaseGang(ns: string, g: string)
      modifies this
      ensures waiting == Released(old(waiting), ns, g)
    {
      ghost var w := waiting;
      var todo := waiting.Keys;
      while todo != {}
        invariant todo <= w.Keys
        invariant waiting == w - (Gang(w, ns, g) - todo)
        decreases |todo|
      {
        var u :| u in todo;
        assert u in waiting && waiting[u] == w[u];
        if InGang(waiting[u], ns, g) { waiting := waiting - {u}; }
        todo := todo - {u};
      }
      assert Gang(w, ns, g) - {} == Gang(w, ns, g);
    }

    method Permit(p: Pod, l: Lister) returns (d: Decision, ghost running: nat)
      requires UniqueNames(l.pods)
      modifies this
      ensures GetPodGroupLabels(p.labels).IsGang() ==>
                running == |ActiveNames(Listed(l, p.namespace, GetPodGroupLabels(p.labels).name), p.name)|
      ensures PermitStep(old(waiting), p, running, d, waiting)
    {
      var m := GetPodGroupLabels(p.labels);
      running := 0;
      if !m.IsGang() { return Success, 0; }
      var active := CalculateRunningPodsExcluding(l, p.namespace, m.name, p.name);
      running := active;
      var inRoom := CalculateWaitingPods(p.namespace, m.name);
      if active + inRoom + 1 < m.minAvailable {
        waiting := waiting[p.uid := p];
        return Wait, running;
      }
      ReleaseGang(p.namespace, m.name);
      d := Success;
    }

    method Unreserve(p: Pod)
      modifies this
      ensures waiting == UnreserveStep(old(waiting), p)
    {
      var m := GetPodGroupLabels(p.labels);
      if m.Member? && m.name != "" { ReleaseGang(p.namespace, m.name); }
    }
  }

  // ---- Whole runs ----

  /** `running` is whatever the lister said at that moment; the run laws hold for every answer. */
  datatype Event = Permitted(pod: Pod, running: nat, d: Decision) | TimedOut(uid: string) | Unreserved(pod: Pod)

  ghost predicate Step(w: WaitingPods, e: Event, w': WaitingPods) {
    match e
    case Permitted(p, running, d) => PermitStep(w, p, running, d, w')
    case TimedOut(u) => w' == w - {u}
    case Unreserved(p) => w' == UnreserveStep(w, p)
  }

  ghost predicate IsRun(rooms: seq<WaitingPods>, events: seq<Event>) {
    && |rooms| == |events| + 1
    && rooms[0] == map[]
    && forall i :: 0 <= i < |events| ==> Step(rooms[i], events[i], rooms[i + 1])
  }

  /** Every pod of the gang that asks for a permit wants at most `bound` members. */
  ghost predicate MinAtMost(e: Event, ns: string, g: string, bound: int) {
    e.Permitted? && InGang(e.pod, ns, g) ==>
      var m := GetPodGroupLabels(e.pod.labels); m.Member? && m.minAvailable <= bound
  }

  lemma StepKeepsBound(w: WaitingPods, e: Event, w': WaitingPods, ns: string, g: string, bound: int)
    requires g != "" && Step(w, e, w') && |Gang(w, ns, g)| < bound
    requires MinAtMost(e, ns, g, bound)
    ensures |Gang(w', ns, g)| < bound
  {
    if e.Permitted? && e.d == Wait && InGang(e.pod, ns, g) {
      forall u | u in Gang(w, ns, g) ensures u in Counted(w, ns, g) { MembersAreCounted(w[u], ns, g); }
      SubsetSize(Gang(w, ns, g), Counted(w, ns, g));
      SubsetSize(Gang(w', ns, g), Gang(w, ns, g) + {e.pod.uid});
    } else {
      SubsetSize(Gang(w', ns, g), Gang(w, ns, g));
    }
  }

  /** In every run a gang has fewer pods waiting than the largest minimum any of its pods asked for. */
  lemma {:induction false} FewerThanMinWaiting(
      rooms: seq<WaitingPods>, events: seq<Event>, i: nat, ns: string, g: string, bound: int)
    requires IsRun(rooms, events) && i < |rooms| && g != "" && bound >= 1
    requires forall j :: 0 <= j < |events| ==> MinAtMost(events[j], ns, g, bound)
    ensures |Gang(rooms[i], ns, g)| < bound
  {
    if i == 0 {
      assert Gang(rooms[0], ns, g) == {};
    } else {
      FewerThanMinWaiting(rooms, events, i - 1, ns, g, bound);
      StepKeepsBound(rooms[i - 1], events[i - 1], rooms[i], ns, g, bound);
    }
  }

  /** A Permit Success or an Unreserve leaves none of the gang waiting, and no step but a timeout
      touches the waiting pods of another gang. */
  lemma ReleaseIsCompleteAndLocal(w: WaitingPods, e: Event, w': WaitingPods, ns: string, g: string)
    requires Step(w, e, w') && !e.TimedOut? && g != ""
    ensures InGang(e.pod, ns, g) && (e.Unreserved? || (e.d == Success && GetPodGroupLabels(e.pod.labels).IsGang())) ==>
              Gang(w', ns, g) == {}
    ensures !InGang(e.pod, ns, g) && e.pod.uid !in Gang(w, ns, g) ==>
              Gang(w', ns, g) == Gang(w, ns, g) && forall u :: u in Gang(w, ns, g) ==> w'[u] == w[u]
  {
  }

  // ---- How many members a Success vouches for ----

  /** Every waiting pod the count sees is a listed, live member other than the pod at hand. */
  ghost predicate WaitersAreListed(w: WaitingPods, l: Lister, p: Pod, g: string) {
    && (forall u, v :: u in w && v in w && u != v && w[u].namespace == w[v].namespace ==> w[u].name != w[v].name)
    && forall u :: u in Counted(w, p.namespace, g) ==> w[u].name in ActiveNames(Listed(l, p.namespace, g), p.name)
  }

  /** The live members known at that moment, the pod at hand included. */
  ghost function LiveMembers(l: Lister, p: Pod, g: string): set<string> {
    ActiveNames(Listed(l, p.namespace, g), p.name) + {p.name}
  }

  /** Waiting pods are counted a second time as active ones, so a Success vouches for more than half of the
      minimum only: at least min / 2 + 1 distinct live members. */
  lemma SuccessVouchesForMajority(w: WaitingPods, l: Lister, p: Pod, w': WaitingPods)
    requires p.name != "" && GetPodGroupLabels(p.labels).IsGang()
    requires var g := GetPodGroupLabels(p.labels).name;
             && WaitersAreListed(w, l, p, g)
             && PermitStep(w, p, |ActiveNames(Listed(l, p.namespace, g), p.name)|, Success, w')
    ensures var m := GetPodGroupLabels(p.labels);
            |LiveMembers(l, p, m.name)| >= m.minAvailable / 2 + 1
  {
    var m := GetPodGroupLabels(p.labels);
    var active := ActiveNames(Listed(l, p.namespace, m.name), p.name);
    assert p.name !in active;
    InjectiveImage(Counted(w, p.namespace, m.name), active, u requires u in w => w[u].name);
  }

  lemma {:induction false} InjectiveImage(from: set<string>, to: set<string>, f: string --> string)
    requires forall x :: x in from ==> f.requires(x) && f(x) in to
    requires forall x, y :: x in from && y in from && x != y ==> f(x) != f(y)
    ensures |from| <= |to|
    decreases |from|
  {
    if from != {} {
      var x :| x in from;
      InjectiveImage(from - {x}, to - {f(x)}, f);
    }
  }

  /** A pod waits exactly while live and waiting members together, the waiting ones counted in both, are
      fewer than the minimum; so never once as many as the minimum are alive, placed or not. */
  lemma WaitsOnlyForMissingMembers(w: WaitingPods, l: Lister, p: Pod, d: Decision, w': WaitingPods)
    requires p.name != "" && GetPodGroupLabels(p.labels).IsGang()
    requires var g := GetPodGroupLabels(p.labels).name;
             PermitStep(w, p, |ActiveNames(Listed(l, p.namespace, g), p.name)|, d, w')
    ensures var m := GetPodGroupLabels(p.labels);
            d == Wait <==> |LiveMembers(l, p, m.name)| + |Counted(w, p.namespace, m.name)| < m.minAvailable
  {
    var g := GetPodGroupLabels(p.labels).name;
    assert p.name !in ActiveNames(Listed(l, p.namespace, g), p.name);
  }

  /** PreFilter's guard: the group has at least its minimum of listed pods. */
  predicate PreFilterPasses(p: Pod, l: Lister) {
    var m := GetPodGroupLabels(p.labels);
    m.IsGang() ==> |Listed(l, p.namespace, m.name)| >= m.minAvailable
  }

  /** Hence on a listing that satisfies PreFilter and holds only live pods, Permit never waits: the
      first member placed is released although no other member has a node yet. */
  lemma LiveGangNeverWaits(w: WaitingPods, l: Lister, p: Pod, d: Decision, w': WaitingPods)
    requires p.name != "" && GetPodGroupLabels(p.labels).IsGang() && UniqueNames(l.pods) && PreFilterPasses(p, l)
    requires var listed := Listed(l, p.namespace, GetPodGroupLabels(p.labels).name);
             && p in listed
             && (forall q :: q in listed ==> Active(q, ""))
             && PermitStep(w, p, |ActiveNames(listed, p.name)|, d, w')
    ensures d == Success
  {
    var g := GetPodGroupLabels(p.labels).name;
    var listed := Listed(l, p.namespace, g);
    SelectKeepsUniqueNames(l.pods, p.namespace, NameKey, g);
    SelectKeepsUniqueNames(l.pods, p.namespace, LegacyNameKey, g);
    AllNamesCounted(listed);
    assert ActiveNames(listed, "") == LiveMembers(l, p, g);
    WaitsOnlyForMissingMembers(w, l, p, d, w');
  }

  lemma {:induction false} AllNamesCounted(pods: seq<Pod>)
    requires UniqueNames(pods)
    requires forall p, q :: p in pods && q in pods ==> p.namespace == q.namespace
    requires forall q :: q in pods ==> Active(q, "")
    ensures |ActiveNames(pods, "")| == |pods|
  {
    if pods != [] {
      var front, last := pods[..|pods| - 1], pods[|pods| - 1];
      AllNamesCounted(front);
      assert pods == front + [last];
      assert ActiveNames(pods, "") == ActiveNames(front, "") + {last.name};
      assert last.name !in ActiveNames(front, "");
    }
  }

  // ---- The majority is attained ----

  /** Member `i` of a group of minimum `n`; the first `live` of them are alive, the others finished. */
  function Worker(ns: Namespace, g: string, n: nat, live: nat, i: nat): Pod {
    Pod(Itoa(i), Itoa(i), ns, map[NameKey := g, MinKey := Itoa(n)], if i < live then Pending else Finished, false)
  }

  function Roster(ns: Namespace, g: string, n: nat, live: nat): Lister {
    Lister(seq(n, i requires 0 <= i => Worker(ns, g, n, live, i)), false, false)
  }

  lemma ItoaInjective(i: nat, j: nat)
    requires Itoa(i) == Itoa(j)
    ensures i == j
  {
    DigitsValueOfItoa(i);
    DigitsValueOfItoa(j);
  }

  lemma {:induction false} SelectsAll(pods: seq<Pod>, ns: string, key: LabelKey, g: string)
    requires forall p :: p in pods ==> p.namespace == ns && Labelled(p, key, g)
    ensures Select(pods, ns, key, g) == pods
  {
    if pods != [] {
      assert pods[0] in pods;
      SelectsAll(pods[1..], ns, key, g);
    }
  }

  lemma RosterIsListed(ns: Namespace, g: string, n: nat, live: nat)
    requires n > 0
    ensures UniqueNames(Roster(ns, g, n, live).pods)
    ensures Listed(Roster(ns, g, n, live), ns, g) == Roster(ns, g, n, live).pods
  {
    var pods := Roster(ns, g, n, live).pods;
    forall i, j | 0 <= i < j < |pods| ensures pods[i].name != pods[j].name {
      if Itoa(i) == Itoa(j) { ItoaInjective(i, j); }
    }
    SelectsAll(pods, ns, NameKey, g);
  }

  function FirstNames(k: nat): set<string> { set i: nat | i < k :: Itoa(i) }

  lemma {:induction false} CountFirstNames(k: nat)
    ensures |FirstNames(k)| == k
  {
    if k > 0 {
      CountFirstNames(k - 1);
      if Itoa(k - 1) in FirstNames(k - 1) {
        var j: nat :| j < k - 1 && Itoa(j) == Itoa(k - 1);
        ItoaInjective(j, k - 1);
      }
      assert FirstNames(k) == FirstNames(k - 1) + {Itoa(k - 1)};
    }
  }

  /** What the running count tells a live member: all the live ones but itself. */
  lemma RosterActive(ns: Namespace, g: string, n: nat, live: nat, i: nat)
    requires i < live <= n
    ensures ActiveNames(Roster(ns, g, n, live).pods, Itoa(i)) == FirstNames(live) - {Itoa(i)}
    ensures |ActiveNames(Roster(ns, g, n, live).pods, Itoa(i))| == live - 1
  {
    var pods := Roster(ns, g, n, live).pods;
    forall j: nat | j < live && Itoa(j) != Itoa(i) ensures Itoa(j) in ActiveNames(pods, Itoa(i)) {
      assert pods[j] in pods && Active(pods[j], Itoa(i));
    }
    CountFirstNames(live);
    assert Itoa(i) in FirstNames(live);
  }

  /** The first `k` members waiting. */
  function Room(ns: Namespace, g: string, n: nat, live: nat, k: nat): WaitingPods {
    if k == 0 then map[] else Room(ns, g, n, live, k - 1)[Itoa(k - 1) := Worker(ns, g, n, live, k - 1)]
  }

  lemma {:induction false} RoomIsOfTheGang(ns: Namespace, g: string, n: nat, live: nat, k: nat)
    requires g != "" && 1 <= n <= MAX_INT
    ensures Room(ns, g, n, live, k).Keys == FirstNames(k)
    ensures forall u :: u in Room(ns, g, n, live, k) ==>
              CountedAsWaiting(Room(ns, g, n, live, k)[u], ns, g) && InGang(Room(ns, g, n, live, k)[u], ns, g)
  {
    if k > 0 {
      RoomIsOfTheGang(ns, g, n, live, k - 1);
      WorkerIsMember(ns, g, n, live, k - 1);
      assert FirstNames(k) == FirstNames(k - 1) + {Itoa(k - 1)};
    }
  }

  lemma WorkerIsMember(ns: Namespace, g: string, n: nat, live: nat, i: nat)
    requires g != "" && 1 <= n <= MAX_INT
    ensures GetPodGroupLabels(Worker(ns, g, n, live, i).labels) == Member(g, n)
    ensures CountedAsWaiting(Worker(ns, g, n, live, i), ns, g) && InGang(Worker(ns, g, n, live, i), ns, g)
  {
    PrintedLabelsReadBack(g, n);
  }

  /** Member `k` asks while the first `k` wait, and is told that the other live ones are active. */
  function Asks(ns: Namespace, g: string, n: nat, live: nat, k: nat): Event
    requires live > 0
  {
    Permitted(Worker(ns, g, n, live, k), live - 1, if live + k < n then Wait else Success)
  }

  function RoomAfter(ns: Namespace, g: string, n: nat, live: nat, k: nat): WaitingPods {
    if live + k < n then Room(ns, g, n, live, k + 1) else map[]
  }

  /** It waits too, until with `live` of them alive and `k` counted twice the minimum seems to be there. */
  lemma WorkerAsks(ns: Namespace, g: string, n: nat, live: nat, k: nat)
    requires g != "" && 2 <= n <= MAX_INT && k < live <= n
    ensures Step(Room(ns, g, n, live, k), Asks(ns, g, n, live, k), RoomAfter(ns, g, n, live, k))
  {
    var w := Room(ns, g, n, live, k);
    WorkerIsMember(ns, g, n, live, k);
    RoomIsOfTheGang(ns, g, n, live, k);
    CountFirstNames(k);
    assert Counted(w, ns, g) == FirstNames(k) && Gang(w, ns, g) == w.Keys;
    assert Released(w, ns, g) == map[];
  }

  /** The listing tells a live member the truth about itself and lets it through PreFilter. */
  ghost predicate AsListed(e: Event, l: Lister, g: string, n: nat) {
    && e.Permitted? && e.pod in l.pods && Active(e.pod, "")
    && GetPodGroupLabels(e.pod.labels) == Member(g, n) && PreFilterPasses(e.pod, l)
    && e.running == |ActiveNames(Listed(l, e.pod.namespace, g), e.pod.name)|
  }

  ghost predicate AllAsListed(events: seq<Event>, l: Lister, g: string, n: nat) {
    forall i :: 0 <= i < |events| ==> AsListed(events[i], l, g, n)
  }

  lemma WorkerAsListed(ns: Namespace, g: string, n: nat, live: nat, k: nat)
    requires g != "" && 2 <= n <= MAX_INT && k < live <= n
    ensures AsListed(Asks(ns, g, n, live, k), Roster(ns, g, n, live), g, n)
  {
    var l := Roster(ns, g, n, live);
    assert l.pods[k] == Worker(ns, g, n, live, k);
    WorkerIsMember(ns, g, n, live, k);
    RosterIsListed(ns, g, n, live);
    RosterActive(ns, g, n, live, k);
  }

  lemma RosterLive(ns: Namespace, g: string, n: nat, live: nat, k: nat)
    requires n > 0 && k < live <= n
    ensures |LiveMembers(Roster(ns, g, n, live), Worker(ns, g, n, live, k), g)| == live
  {
    RosterIsListed(ns, g, n, live);
    RosterActive(ns, g, n, live, k);
    CountFirstNames(live);
    assert Itoa(k) in FirstNames(live);
    assert LiveMembers(Roster(ns, g, n, live), Worker(ns, g, n, live, k), g) == FirstNames(live);
  }

  /** Runs are built one event at a time. */
  lemma ExtendRun(rooms: seq<WaitingPods>, events: seq<Event>, e: Event, w': WaitingPods)
    requires IsRun(rooms, events) && Step(rooms[|events|], e, w')
    ensures IsRun(rooms + [w'], events + [e])
  {
    var rooms', events' := rooms + [w'], events + [e];
    forall i | 0 <= i < |events'| ensures Step(rooms'[i], events'[i], rooms'[i + 1]) {
      if i < |events| { assert Step(rooms[i], events[i], rooms[i + 1]); }
    }
  }

  lemma {:induction false} AskingInTurn(ns: Namespace, g: string, n: nat, live: nat, k: nat)
    returns (rooms: seq<WaitingPods>, events: seq<Event>)
    requires g != "" && 2 <= n <= MAX_INT && k < live <= n && live + k <= n
    ensures IsRun(rooms, events) && |events| == k && rooms[k] == Room(ns, g, n, live, k)
    ensures forall i :: 0 <= i < k ==> events[i] == Asks(ns, g, n, live, i)
  {
    if k == 0 {
      rooms, events := [map[]], [];
    } else {
      rooms, events := AskingInTurn(ns, g, n, live, k - 1);
      WorkerAsks(ns, g, n, live, k - 1);
      ExtendRun(rooms, events, Asks(ns, g, n, live, k - 1), Room(ns, g, n, live, k));
      rooms, events := rooms + [Room(ns, g, n, live, k)], events + [Asks(ns, g, n, live, k - 1)];
    }
  }

  /** After as many have waited as the count may be short by, the next one gets a Success. */
  lemma AskingUntilSuccess(ns: Namespace, g: string, n: nat, live: nat)
    returns (rooms: seq<WaitingPods>, events: seq<Event>)
    requires g != "" && 2 <= n <= MAX_INT && live <= n < 2 * live
    ensures IsRun(rooms, events) && |events| == n - live + 1
    ensures forall i :: 0 <= i < |events| ==> events[i] == Asks(ns, g, n, live, i)
  {
    var waits := n - live;
    rooms, events := AskingInTurn(ns, g, n, live, waits);
    WorkerAsks(ns, g, n, live, waits);
    ExtendRun(rooms, events, Asks(ns, g, n, live, waits), map[]);
    rooms, events := rooms + [map[]], events + [Asks(ns, g, n, live, waits)];
  }

  /** The bound is attained: for every gang and minimum, on a listing of as many members of which only
      min / 2 + 1 are alive, live members ask one after the other, wait, and the last to ask gets a Success. */
  lemma MajorityIsAttained(ns: Namespace, g: string, n: nat)
    returns (l: Lister, rooms: seq<WaitingPods>, events: seq<Event>)
    requires g != "" && 2 <= n <= MAX_INT
    ensures IsRun(rooms, events) && |events| > 0 && UniqueNames(l.pods)
    ensures AllAsListed(events, l, g, n)
    ensures var e := events[|events| - 1]; e.Permitted? && e.d == Success && |LiveMembers(l, e.pod, g)| == n / 2 + 1
  {
    var live := n / 2 + 1;
    l := Roster(ns, g, n, live);
    RosterIsListed(ns, g, n, live);
    rooms, events := AskingUntilSuccess(ns, g, n, live);
    AskersAsListed(ns, g, n, live, events);
    LastAsk(ns, g, n, live, n - live);
    assert events[|events| - 1] == Asks(ns, g, n, live, n - live);
  }

  lemma AskersAsListed(ns: Namespace, g: string, n: nat, live: nat, events: seq<Event>)
    requires g != "" && 2 <= n <= MAX_INT && |events| <= live <= n
    requires forall i :: 0 <= i < |events| ==> events[i] == Asks(ns, g, n, live, i)
    ensures AllAsListed(events, Roster(ns, g, n, live), g, n)
  {
    forall i | 0 <= i < |events| ensures AsListed(events[i], Roster(ns, g, n, live), g, n) {
      WorkerAsListed(ns, g, n, live, i);
    }
  }

  lemma LastAsk(ns: Namespace, g: string, n: nat, live: nat, k: nat)
    requires n > 0 && live + k == n && k < live
    ensures Asks(ns, g, n, live, k).d == Success
    ensures |LiveMembers(Roster(ns, g, n, live), Asks(ns, g, n, live, k).pod, g)| == live
  {
    RosterLive(ns, g, n, live, k);
    assert Asks(ns, g, n, live, k).pod == Worker(ns, g, n, live, k);
  }
}
