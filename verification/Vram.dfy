/** VRAM-aware filtering and scoring, and the GPU topology bonus
    (pkg/plugins/vramscheduler/vramscheduler.go). The discovered devices, the VRAM request and the tenant
    tier are inputs; ratios are exact reals. */
module Vram {
  import opened Collections

  const BONUS_GPU_NUMA_LOCALITY := 15
  const BONUS_NVLINK_CONNECTED := 25
  const BONUS_PCIE_LOCALITY := 10
  const BONUS_HIGH_END_GPU := 10
  const PENALTY_STRAND_VRAM := 20

  /** NUMA node and NVLink domain are negative, the PCIe switch empty, when unknown. */
  datatype GPUDevice = GPUDevice(vram: nat, numaNode: int, pcieSwitch: string, nvlinkPeers: nat, nvlinkDomain: int)

  // ---- VRAM per GPU ----

  /** What the minimum loop computes: a zero reading restarts it. */
  function MinLoop(devices: seq<GPUDevice>): nat {
    if |devices| == 0 then 0
    else
      var sofar, d := MinLoop(devices[..|devices| - 1]), devices[|devices| - 1];
      if sofar == 0 || d.vram < sofar then d.vram else sofar
  }

  /** Discovered devices, or the node labels' figure when none were found. */
  method GetNodeGPUVRAM(devices: seq<GPUDevice>, labelVram: nat, labelCount: nat) returns (vramPerGPU: nat, count: nat)
    ensures vramPerGPU == NodeVram(devices, labelVram)
    ensures count == if |devices| == 0 then labelCount else |devices|
  {
    if |devices| == 0 { return labelVram, labelCount; }
    vramPerGPU := 0;
    for i := 0 to |devices|
      invariant vramPerGPU == MinLoop(devices[..i])
    {
      assert devices[..i + 1][..i] == devices[..i];
      if vramPerGPU == 0 || devices[i].vram < vramPerGPU { vramPerGPU := devices[i].vram; }
    }
    assert devices[..|devices|] == devices;
    count := |devices|;
  }

  function NodeVram(devices: seq<GPUDevice>, labelVram: nat): nat {
    if |devices| == 0 then labelVram else MinLoop(devices)
  }

  /** Discovery only yields devices of known VRAM. */
  ghost predicate AllKnown(devices: seq<GPUDevice>) {
    forall i :: 0 <= i < |devices| ==> devices[i].vram > 0
  }

  /** On devices of known VRAM the loop finds the least; and it never reports zero by mistake then. */
  lemma {:induction false} MinLoopIsMinimum(devices: seq<GPUDevice>)
    requires AllKnown(devices) && |devices| > 0
    ensures MinLoop(devices) > 0
    ensures forall i :: 0 <= i < |devices| ==> MinLoop(devices) <= devices[i].vram
    ensures exists i :: 0 <= i < |devices| && MinLoop(devices) == devices[i].vram
  {
    var last := |devices| - 1;
    var front := devices[..last];
    if last > 0 {
      MinLoopIsMinimum(front);
      var j :| 0 <= j < |front| && MinLoop(front) == front[j].vram;
      assert devices[j] == front[j];
      forall i | 0 <= i < |devices| ensures MinLoop(devices) <= devices[i].vram {
        if i < last { assert devices[i] == front[i]; }
      }
    }
    assert MinLoop(devices) == devices[last].vram || MinLoop(devices) == MinLoop(front);
  }

  /** With the request's GPU count never below one. */
  function EffectiveCount(gpusRequested: nat): nat { if gpusRequested == 0 then 1 else gpusRequested }

  // ---- Filter ----

  /** `request` is the pod's VRAM in bytes, 0 if it names none; an annotation may hold a negative quantity. */
  predicate Filter(request: int, gpuVram: nat, gpusRequested: nat) {
    request == 0 || (gpuVram != 0 && request <= gpuVram * EffectiveCount(gpusRequested))
  }

  function TotalVram(devices: seq<GPUDevice>): nat {
    if |devices| == 0 then 0 else TotalVram(devices[..|devices| - 1]) + devices[|devices| - 1].vram
  }

  lemma {:induction false} TotalAtLeast(chosen: seq<GPUDevice>, least: nat)
    requires forall i :: 0 <= i < |chosen| ==> chosen[i].vram >= least
    ensures TotalVram(chosen) >= least * |chosen|
  {
    if |chosen| > 0 { TotalAtLeast(chosen[..|chosen| - 1], least); }
  }

  /** If Filter passes on discovered devices, any choice of the requested number of them has the VRAM. */
  lemma AnyChoiceSuffices(request: int, devices: seq<GPUDevice>, gpusRequested: nat, chosen: seq<GPUDevice>)
    requires AllKnown(devices) && |devices| > 0 && request != 0
    requires Filter(request, MinLoop(devices), gpusRequested)
    requires multiset(chosen) <= multiset(devices) && |chosen| == EffectiveCount(gpusRequested)
    ensures TotalVram(chosen) >= request
  {
    MinLoopIsMinimum(devices);
    forall i | 0 <= i < |chosen| ensures chosen[i].vram >= MinLoop(devices) {
      assert chosen[i] in multiset(chosen);
      assert chosen[i] in multiset(devices);
    }
    TotalAtLeast(chosen, MinLoop(devices));
  }

  /** Filter never looks at how many devices there are: on a node that passes, an adequate choice of the
      requested number exists exactly when the node has that many. */
  lemma AdequateChoiceExistsExactly(request: int, devices: seq<GPUDevice>, gpusRequested: nat)
    requires AllKnown(devices) && |devices| > 0 && request != 0
    requires Filter(request, MinLoop(devices), gpusRequested)
    ensures (exists chosen :: multiset(chosen) <= multiset(devices) && |chosen| == EffectiveCount(gpusRequested)
                              && TotalVram(chosen) >= request)
            <==> EffectiveCount(gpusRequested) <= |devices|
  {
    var n := EffectiveCount(gpusRequested);
    if n <= |devices| {
      FirstsAreAmong(devices, n);
      AnyChoiceSuffices(request, devices, gpusRequested, devices[..n]);
    } else {
      forall chosen: seq<GPUDevice> | multiset(chosen) <= multiset(devices) ensures |chosen| <= |devices| {
        AmongIsNoLonger(chosen, devices);
      }
    }
  }

  lemma FirstsAreAmong<T>(s: seq<T>, n: nat)
    requires n <= |s|
    ensures multiset(s[..n]) <= multiset(s)
  {
    var front, rest := s[..n], s[n..];
    assert s == front + rest;
    assert multiset(s) == multiset(front) + multiset(rest);
  }

  lemma AmongIsNoLonger<T>(chosen: seq<T>, s: seq<T>)
    requires multiset(chosen) <= multiset(s)
    ensures |chosen| <= |s|
  {
    var rest := multiset(s) - multiset(chosen);
    assert multiset(s) == multiset(chosen) + rest;
    assert |s| == |multiset(s)| == |chosen| + |rest|;
  }

  /** The hypothesis of known VRAM, which discovery guarantees, is what that takes: if the loop reports a
      capacity although some device reads zero, a request for that capacity passes Filter and the zero
      device cannot serve it. */
  lemma ZeroDeviceSlipsThrough(devices: seq<GPUDevice>, z: nat)
    requires z < |devices| && devices[z].vram == 0 && MinLoop(devices) > 0
    ensures Filter(MinLoop(devices), MinLoop(devices), 1)
    ensures TotalVram([devices[z]]) < MinLoop(devices)
  {
  }

  // ---- Score ----

  datatype Tier = Gold | Silver | Bronze | OtherTier

  datatype Thresholds = Thresholds(perfect: real, good: real, acceptable: real, poor: real)

  function ThresholdsOf(tier: Tier): Thresholds {
    match tier
    case Gold => Thresholds(0.98, 0.85, 0.70, 0.50)
    case Bronze => Thresholds(0.90, 0.60, 0.40, 0.20)
    case _ => Thresholds(0.95, 0.70, 0.50, 0.30)
  }

  function CalculateUtilizationScore(ratio: real, tier: Tier): int {
    var t := ThresholdsOf(tier);
    if ratio >= t.perfect then 100
    else if ratio >= t.good then 80
    else if ratio >= t.acceptable then 60
    else if ratio >= t.poor then 30
    else 0
  }

  /** Better utilisation never scores lower, and a tighter tier never scores higher. */
  lemma UtilizationScoreMonotone(r: real, s: real, tier: Tier)
    requires r <= s
    ensures CalculateUtilizationScore(r, tier) <= CalculateUtilizationScore(s, tier)
    ensures CalculateUtilizationScore(r, Gold) <= CalculateUtilizationScore(r, Silver) <= CalculateUtilizationScore(r, Bronze)
  {
  }

  /** The least utilisation for each number of points: gold asks for most, bronze for least. */
  lemma PointsNeedUtilization(ratio: real, tier: Tier)
    ensures CalculateUtilizationScore(ratio, tier) == 100 <==>
              ratio >= 0.98 || (ratio >= 0.95 && tier != Gold) || (ratio >= 0.90 && tier == Bronze)
    ensures CalculateUtilizationScore(ratio, tier) >= 80 <==>
              ratio >= 0.85 || (ratio >= 0.70 && tier != Gold) || (ratio >= 0.60 && tier == Bronze)
    ensures CalculateUtilizationScore(ratio, tier) >= 60 <==>
              ratio >= 0.70 || (ratio >= 0.50 && tier != Gold) || (ratio >= 0.40 && tier == Bronze)
    ensures CalculateUtilizationScore(ratio, tier) >= 30 <==>
              ratio >= 0.50 || (ratio >= 0.30 && tier != Gold) || (ratio >= 0.20 && tier == Bronze)
    ensures CalculateUtilizationScore(ratio, tier) in {0, 30, 60, 80, 100}
  {
  }

  /** How Score ends: no request, insufficient VRAM, or a ratio and the points for it. */
  datatype Verdict = NoRequest | Insufficient | Rated(ratio: real, score: int)

  ghost function Score(request: int, devices: seq<GPUDevice>, labelVram: nat, gpusRequested: nat, tier: Tier, highEnd: bool): Verdict {
    var perGPU := NodeVram(devices, labelVram);
    var count := if gpusRequested == 0 && request > 0 then 1 else gpusRequested;
    if request == 0 then NoRequest
    else if perGPU == 0 then Insufficient
    else if request > perGPU then
      (if request > perGPU * count then Insufficient
       else
         assert perGPU * count > 0;
         var ratio := request as real / (perGPU * count) as real;
         Rated(ratio, CalculateUtilizationScore(ratio, tier)))
    else
      var ratio := request as real / perGPU as real;
      var base := CalculateUtilizationScore(ratio, tier);
      var lifted := if highEnd && ratio >= 0.70 then Min(base + BONUS_HIGH_END_GPU, 100) else base;
      var kept := if ratio < 0.30 then Max(lifted - PENALTY_STRAND_VRAM, 0) else lifted;
      Rated(ratio, if count > 1 && |devices| >= count then Min(kept + TopologyBonus(devices, count), 100) else kept)
  }

  function Min(a: int, b: int): int { if a < b then a else b }
  function Max(a: int, b: int): int { if a > b then a else b }

  /** What a node is rated at: the request over one GPU's VRAM if that holds it, else over that of all the
      GPUs asked for. */
  lemma RatedAt(request: int, devices: seq<GPUDevice>, labelVram: nat, gpusRequested: nat, tier: Tier, highEnd: bool)
    requires Score(request, devices, labelVram, gpusRequested, tier, highEnd).Rated?
    ensures var v, perGPU := Score(request, devices, labelVram, gpusRequested, tier, highEnd), NodeVram(devices, labelVram);
            && (request <= perGPU ==> v.ratio * perGPU as real == request as real)
            && (request > perGPU ==> v.ratio * (perGPU * gpusRequested) as real == request as real)
  {
    var perGPU := NodeVram(devices, labelVram);
    if request <= perGPU { RatioTimes(request, perGPU); } else { RatioTimes(request, perGPU * gpusRequested); }
  }

  lemma RatioTimes(a: int, b: int)
    requires b > 0
    ensures (a as real / b as real) * b as real == a as real
  {
  }

  /** On several GPUs the points stand as they are. On one, without topology bonus, high-end GPUs add ten
      points, up to 100, from a utilisation of 0.7 on, and one below 0.3 costs twenty, down to 0. */
  lemma AdjustmentsByUtilization(request: int, devices: seq<GPUDevice>, labelVram: nat, tier: Tier)
    requires Score(request, devices, labelVram, 1, tier, true).Rated?
    ensures var high, low := Score(request, devices, labelVram, 1, tier, true), Score(request, devices, labelVram, 1, tier, false);
            var points := CalculateUtilizationScore(high.ratio, tier);
            && low.Rated? && high.ratio == low.ratio
            && (high.ratio >= 0.7 ==> low.score == points && (high.score == points + 10 || (points > 90 && high.score == 100)))
            && (0.3 <= high.ratio < 0.7 ==> high.score == low.score == points)
            && (high.ratio < 0.3 ==> high.score == low.score && (low.score == points - 20 || (points < 20 && low.score == 0)))
  {
  }

  /** Spread over several GPUs a request earns its points and nothing more; held by one although several are
      asked for, it also earns the topology bonus, if the node has that many, up to 100. */
  lemma TopologyCountsForOneGpuFits(request: int, devices: seq<GPUDevice>, labelVram: nat, k: nat, tier: Tier)
    requires k > 1 && Score(request, devices, labelVram, k, tier, false).Rated?
    ensures var v, perGPU := Score(request, devices, labelVram, k, tier, false), NodeVram(devices, labelVram);
            && (request > perGPU ==> v.score == CalculateUtilizationScore(v.ratio, tier))
            && (request <= perGPU ==>
                  var single := Score(request, devices, labelVram, 1, tier, false);
                  && single.Rated? && single.ratio == v.ratio
                  && (v.score == single.score + TopologyBonus(devices, k)
                      || (v.score == 100 && single.score + TopologyBonus(devices, k) > 100)))
  {
  }

  lemma RatioBounds(request: int, capacity: int)
    requires request <= capacity && capacity > 0
    ensures request as real / capacity as real <= 1.0
    ensures request as real / capacity as real > 0.0 <==> request > 0
  {
  }

  /** Score takes its insufficient exit exactly where Filter rejects; every surviving node is rated at a
      utilisation of at most 1, positive exactly for a positive request, and its score lies between 0 and 100. */
  lemma ScoreAgreesWithFilter(
      request: int, devices: seq<GPUDevice>, labelVram: nat, gpusRequested: nat, tier: Tier, highEnd: bool)
    ensures var v := Score(request, devices, labelVram, gpusRequested, tier, highEnd);
            && (v.Insufficient? <==> !Filter(request, NodeVram(devices, labelVram), gpusRequested))
            && (v.NoRequest? <==> request == 0)
            && (v.Rated? ==> v.ratio <= 1.0 && (v.ratio > 0.0 <==> request > 0) && 0 <= v.score <= 100)
  {
    var perGPU, count := NodeVram(devices, labelVram), EffectiveCount(gpusRequested);
    if request != 0 && perGPU > 0 {
      assert perGPU * count >= perGPU by { assert perGPU * count >= perGPU * 1; }
      if request > perGPU {
        if request <= perGPU * count { RatioBounds(request, perGPU * count); }
      } else {
        RatioBounds(request, perGPU);
      }
    }
  }

  // ---- Topology bonus ----

  /** The three groupings the locality loops use; negative or empty means unknown. */
  datatype Grouping = ByNuma | ByDomain | BySwitch

  datatype Group = Unknown | Numbered(id: int) | Named(name: string)

  function GroupOf(d: GPUDevice, kind: Grouping): Group {
    match kind
    case ByNuma => if d.numaNode >= 0 then Numbered(d.numaNode) else Unknown
    case ByDomain => if d.nvlinkDomain >= 0 then Numbered(d.nvlinkDomain) else Unknown
    case BySwitch => if d.pcieSwitch != "" then Named(d.pcieSwitch) else Unknown
  }

  /** Two devices are together exactly when they name the same NUMA node, domain or switch, node and domain 0
      included; a negative number or an empty switch name is none. */
  lemma SameGroupExactly(d: GPUDevice, e: GPUDevice)
    ensures GroupOf(d, ByNuma) == GroupOf(e, ByNuma) != Unknown <==> d.numaNode == e.numaNode >= 0
    ensures GroupOf(d, ByDomain) == GroupOf(e, ByDomain) != Unknown <==> d.nvlinkDomain == e.nvlinkDomain >= 0
    ensures GroupOf(d, BySwitch) == GroupOf(e, BySwitch) != Unknown <==> d.pcieSwitch == e.pcieSwitch != ""
  {
  }

  /** Those of the first `n` devices that are in one group. */
  function InsideFirst(devices: seq<GPUDevice>, n: nat, kind: Grouping, g: Group): set<int>
    requires n <= |devices|
  {
    set i | 0 <= i < n && GroupOf(devices[i], kind) == g
  }

  function Inside(devices: seq<GPUDevice>, kind: Grouping, g: Group): set<int> {
    InsideFirst(devices, |devices|, kind, g)
  }

  /** Some k distinct devices share a known group. */
  ghost predicate Share(devices: seq<GPUDevice>, kind: Grouping, k: nat) {
    exists g :: g != Unknown && |Inside(devices, kind, g)| >= k
  }

  ghost predicate Tallied(counts: map<Group, nat>, devices: seq<GPUDevice>, n: nat, kind: Grouping)
    requires n <= |devices|
  {
    && (forall g :: g in counts ==> g != Unknown && counts[g] == |InsideFirst(devices, n, kind, g)|)
    && forall g :: g != Unknown && g !in counts ==> InsideFirst(devices, n, kind, g) == {}
  }

  lemma InsideOneMore(devices: seq<GPUDevice>, n: nat, kind: Grouping, g: Group)
    requires n < |devices|
    ensures InsideFirst(devices, n + 1, kind, g) ==
            InsideFirst(devices, n, kind, g) + if GroupOf(devices[n], kind) == g then {n} else {}
    ensures |InsideFirst(devices, n + 1, kind, g)| ==
            |InsideFirst(devices, n, kind, g)| + if GroupOf(devices[n], kind) == g then 1 else 0
  {
  }

  function Bump(counts: map<Group, nat>, g: Group): map<Group, nat> {
    if g == Unknown then counts else counts[g := 1 + if g in counts then counts[g] else 0]
  }

  lemma TalliedOneMore(counts: map<Group, nat>, devices: seq<GPUDevice>, n: nat, kind: Grouping)
    requires n < |devices| && Tallied(counts, devices, n, kind)
    ensures Tallied(Bump(counts, GroupOf(devices[n], kind)), devices, n + 1, kind)
  {
    var after := Bump(counts, GroupOf(devices[n], kind));
    forall g | g in after ensures g != Unknown && after[g] == |InsideFirst(devices, n + 1, kind, g)| {
      InsideOneMore(devices, n, kind, g);
    }
    forall g | g != Unknown && g !in after ensures InsideFirst(devices, n + 1, kind, g) == {} {
      InsideOneMore(devices, n, kind, g);
    }
  }

  /** The counting loop of the three locality checks: true exactly when k distinct devices share one. */
  method CheckLocality(devices: seq<GPUDevice>, kind: Grouping, k: nat) returns (found: bool)
    requires k >= 1
    ensures found <==> Share(devices, kind, k)
  {
    var counts: map<Group, nat> := map[];
    for i := 0 to |devices|
      invariant Tallied(counts, devices, i, kind)
    {
      TalliedOneMore(counts, devices, i, kind);
      counts := Bump(counts, GroupOf(devices[i], kind));
    }
    var todo := counts.Keys;
    while todo != {}
      invariant todo <= counts.Keys
      invariant forall g :: g in counts && g !in todo ==> counts[g] < k
      decreases |todo|
    {
      var g :| g in todo;
      if counts[g] >= k {
        assert |Inside(devices, kind, g)| >= k;
        return true;
      }
      todo := todo - {g};
    }
    return false;
  }

  /** NVLink: a shared domain, or any one device with enough peers. */
  ghost predicate Connected(devices: seq<GPUDevice>, k: nat) {
    k > 1 && (Share(devices, ByDomain, k) || exists i :: 0 <= i < |devices| && devices[i].nvlinkPeers >= k - 1)
  }

  method CheckNVLinkConnectivity(devices: seq<GPUDevice>, k: nat) returns (found: bool)
    ensures found <==> Connected(devices, k)
  {
    if k <= 1 { return false; }
    var sameDomain := CheckLocality(devices, ByDomain, k);
    if sameDomain { return true; }
    for i := 0 to |devices|
      invariant forall j :: 0 <= j < i ==> devices[j].nvlinkPeers < k - 1
    {
      if devices[i].nvlinkPeers >= k - 1 { return true; }
    }
    return false;
  }

  ghost function TopologyBonus(devices: seq<GPUDevice>, k: nat): int {
    if |devices| < k || k <= 1 then 0
    else (if Share(devices, ByNuma, k) then BONUS_GPU_NUMA_LOCALITY else 0)
         + (if Connected(devices, k) then BONUS_NVLINK_CONNECTED else 0)
         + (if Share(devices, BySwitch, k) then BONUS_PCIE_LOCALITY else 0)
  }

  method CalculateGPUTopologyBonus(devices: seq<GPUDevice>, k: nat) returns (bonus: int)
    ensures bonus == TopologyBonus(devices, k)
  {
    bonus := 0;
    if |devices| < k || k <= 1 { return; }
    var numaLocality := CheckLocality(devices, ByNuma, k);
    if numaLocality { bonus := bonus + BONUS_GPU_NUMA_LOCALITY; }
    var nvlinkConnectivity := CheckNVLinkConnectivity(devices, k);
    if nvlinkConnectivity { bonus := bonus + BONUS_NVLINK_CONNECTED; }
    var pcieLocality := CheckLocality(devices, BySwitch, k);
    if pcieLocality { bonus := bonus + BONUS_PCIE_LOCALITY; }
  }

  /** The bonus tells which conditions hold, but for 25, which is also what NUMA node and switch earn together. */
  lemma BonusTellsTheConditions(devices: seq<GPUDevice>, k: nat)
    requires 2 <= k <= |devices|
    ensures var bonus, numa, linked, pcie := TopologyBonus(devices, k), Share(devices, ByNuma, k), Connected(devices, k), Share(devices, BySwitch, k);
            && (bonus == 50 <==> numa && linked && pcie) && (bonus == 0 <==> !numa && !linked && !pcie)
            && (bonus == 40 <==> numa && linked && !pcie) && (bonus == 35 <==> !numa && linked && pcie)
            && (bonus == 15 <==> numa && !linked && !pcie) && (bonus == 10 <==> !numa && !linked && pcie)
            && (bonus == 25 <==> numa != linked && numa == pcie)
  {
  }

  /** Asking for more GPUs never earns a larger bonus. */
  lemma BonusNeverGrowsWithTheRequest(devices: seq<GPUDevice>, j: nat, k: nat)
    requires 2 <= j <= k
    ensures TopologyBonus(devices, k) <= TopologyBonus(devices, j)
  {
  }

  // Adding devices.

  /** Each device's group. */
  function Groups(devices: seq<GPUDevice>, kind: Grouping): seq<Group> {
    seq(|devices|, i requires 0 <= i < |devices| => GroupOf(devices[i], kind))
  }

  lemma {:induction false} InsideCount(devices: seq<GPUDevice>, n: nat, kind: Grouping, g: Group)
    requires n <= |devices|
    ensures |InsideFirst(devices, n, kind, g)| == multiset(Groups(devices, kind)[..n])[g]
  {
    if n > 0 {
      InsideCount(devices, n - 1, kind, g);
      InsideOneMore(devices, n - 1, kind, g);
      assert Groups(devices, kind)[..n] == Groups(devices, kind)[..n - 1] + [GroupOf(devices[n - 1], kind)];
    }
  }

  lemma {:induction false} GroupsGrow(a: seq<GPUDevice>, b: seq<GPUDevice>, kind: Grouping)
    requires multiset(a) <= multiset(b)
    ensures multiset(Groups(a, kind)) <= multiset(Groups(b, kind))
    decreases |a|
  {
    if |a| > 0 {
      var n := |a| - 1;
      var i := MatchLast(a, b);
      GroupsGrow(a[..n], b[..i] + b[i + 1..], kind);
      GroupsWithoutIndex(b, i, kind);
      assert Groups(a, kind) == Groups(a[..n], kind) + [GroupOf(a[n], kind)];
      assert Groups(b, kind)[i] == GroupOf(a[n], kind);
      AddBack(Groups(a[..n], kind), Groups(b, kind), i);
    }
  }

  lemma AddBack<T>(a: seq<T>, b: seq<T>, i: nat)
    requires i < |b| && multiset(a) <= multiset(b) - multiset{b[i]}
    ensures multiset(a + [b[i]]) <= multiset(b)
  {
  }

  lemma GroupsWithoutIndex(b: seq<GPUDevice>, i: nat, kind: Grouping)
    requires i < |b|
    ensures multiset(Groups(b[..i] + b[i + 1..], kind)) == multiset(Groups(b, kind)) - multiset{GroupOf(b[i], kind)}
  {
    var groups := Groups(b, kind);
    WithoutIndex(groups, i);
    assert Groups(b[..i] + b[i + 1..], kind) == groups[..i] + groups[i + 1..];
  }

  lemma SharingGrows(a: seq<GPUDevice>, b: seq<GPUDevice>, kind: Grouping, k: nat)
    requires multiset(a) <= multiset(b) && Share(a, kind, k)
    ensures Share(b, kind, k)
  {
    var g :| g != Unknown && |Inside(a, kind, g)| >= k;
    InsideCount(a, |a|, kind, g);
    InsideCount(b, |b|, kind, g);
    assert Groups(a, kind)[..|a|] == Groups(a, kind) && Groups(b, kind)[..|b|] == Groups(b, kind);
    GroupsGrow(a, b, kind);
    assert |Inside(b, kind, g)| >= k;
  }

  lemma ConnectionsGrow(a: seq<GPUDevice>, b: seq<GPUDevice>, k: nat)
    requires multiset(a) <= multiset(b) && Connected(a, k)
    ensures Connected(b, k)
  {
    if Share(a, ByDomain, k) {
      SharingGrows(a, b, ByDomain, k);
    } else {
      var i :| 0 <= i < |a| && a[i].nvlinkPeers >= k - 1;
      assert a[i] in multiset(a);
      assert a[i] in multiset(b);
      var j :| 0 <= j < |b| && b[j] == a[i];
      assert b[j].nvlinkPeers >= k - 1;
    }
  }

  /** Adding devices, anywhere in the list, never shrinks the bonus. */
  lemma BonusNeverShrinksWithDevices(a: seq<GPUDevice>, b: seq<GPUDevice>, k: nat)
    requires multiset(a) <= multiset(b)
    ensures TopologyBonus(a, k) <= TopologyBonus(b, k)
  {
    if |a| >= k && k > 1 {
      assert |a| <= |b| by { assert multiset(b) == multiset(a) + (multiset(b) - multiset(a)); }
      if Share(a, ByNuma, k) { SharingGrows(a, b, ByNuma, k); }
      if Share(a, BySwitch, k) { SharingGrows(a, b, BySwitch, k); }
      if Connected(a, k) { ConnectionsGrow(a, b, k); }
    }
  }
}
