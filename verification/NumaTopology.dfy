/** NUMA topology labels and the strict single-NUMA filter
    (pkg/plugins/numatopology/numatopology.go). */
module NumaTopology {
  import opened Collections
  import opened Text

  /** What a parser does: a value, an error, or no return at all. */
  datatype Parse<T> = Done(value: T) | Malformed | Endless

  // ---- CPU lists such as "0-15,32-47" ----

  predicate IsSpace(c: char) {
    || c in {' ', '\t', '\n', '\r'} || c as int in {0x0B, 0x0C, 0x85, 0xA0, 0x1680, 0x2028, 0x2029, 0x202F, 0x205F, 0x3000}
    || 0x2000 <= c as int <= 0x200A
  }

  /** `strings.TrimSpace`. */
  function TrimSpace(s: string): string {
    if |s| > 0 && IsSpace(s[0]) then TrimSpace(s[1..])
    else if |s| > 0 && IsSpace(s[|s| - 1]) then TrimSpace(s[..|s| - 1])
    else s
  }

  /** Nothing but spaces goes, and from the ends only; what is left neither begins nor ends with one. */
  lemma {:induction false} TrimSpaceExactly(s: string) returns (i: nat, j: nat)
    ensures i <= j <= |s| && TrimSpace(s) == s[i..j]
    ensures forall k :: 0 <= k < i || j <= k < |s| ==> IsSpace(s[k])
    ensures i < j ==> !IsSpace(s[i]) && !IsSpace(s[j - 1])
    decreases |s|
  {
    i, j := 0, |s|;
    if |s| > 0 && IsSpace(s[0]) {
      var i', j' := TrimSpaceExactly(s[1..]);
      i, j := i' + 1, j' + 1;
      forall k | 0 <= k < i || j <= k < |s| ensures IsSpace(s[k]) { if k > 0 { assert s[1..][k - 1] == s[k]; } }
    } else if |s| > 0 && IsSpace(s[|s| - 1]) {
      i, j := TrimSpaceExactly(s[..|s| - 1]);
      forall k | 0 <= k < i || j <= k < |s| ensures IsSpace(s[k]) { if k < |s| - 1 { assert s[..|s| - 1][k] == s[k]; } }
    }
  }

  /** Blank, tab and line ends are spaces, printable ASCII characters are not. */
  lemma SpacesAreBlank(c: char)
    ensures c == ' ' || c == '\t' || c == '\n' || c == '\r' ==> IsSpace(c)
    ensures '!' <= c <= '~' ==> !IsSpace(c)
  {
  }

  function Range(lo: int, hi: int): seq<int>
    decreases hi - lo
  {
    if lo > hi then [] else Range(lo, hi - 1) + [hi]
  }

  /** One comma-separated piece: a number, or two joined by a dash. A backward range is empty; one that runs
      up to the largest int64 is never left, since the counter wraps around to the least one. */
  function ParsePiece(piece: string): Parse<seq<int>> {
    var parts := Split(TrimSpace(piece), '-');
    if |parts| == 1 then
      match Atoi(parts[0])
      case None => Malformed
      case Some(cpu) => Done([cpu])
    else if |parts| == 2 then
      var first, last := Atoi(parts[0]), Atoi(parts[1]);
      if first.None? || last.None? then Malformed
      else if first.value <= last.value == MAX_INT then Endless
      else Done(Range(first.value, last.value))
    else Malformed
  }

  /** Reading one list after another. */
  function Then(a: Parse<seq<int>>, b: Parse<seq<int>>): Parse<seq<int>> {
    if !a.Done? then a else if !b.Done? then b else Done(a.value + b.value)
  }

  /** All results in order, or the outcome of the first that is not done. */
  function Gather(results: seq<Parse<seq<int>>>): Parse<seq<int>> {
    if |results| == 0 then Done([]) else Then(Gather(results[..|results| - 1]), results[|results| - 1])
  }

  function Parsed(pieces: seq<string>): seq<Parse<seq<int>>> {
    seq(|pieces|, i requires 0 <= i < |pieces| => ParsePiece(pieces[i]))
  }

  function CPUList(list: string): Parse<seq<int>> { Gather(Parsed(Split(list, ','))) }

  /** Appends one piece's CPUs. */
  method AppendPiece(cpus: seq<int>, piece: string) returns (r: Parse<seq<int>>)
    ensures r == Then(Done(cpus), ParsePiece(piece))
  {
    var parts := Split(TrimSpace(piece), '-');
    if |parts| == 1 {
      var cpu := Atoi(parts[0]);
      if cpu.None? { return Malformed; }
      return Done(cpus + [cpu.value]);
    } else if |parts| == 2 {
      var first := Atoi(parts[0]);
      if first.None? { return Malformed; }
      var last := Atoi(parts[1]);
      if last.None? { return Malformed; }
      if first.value <= last.value == MAX_INT { return Endless; }
      var grown := AppendRange(cpus, first.value, last.value);
      return Done(grown);
    }
    return Malformed;
  }

  /** The counting loop of a range that ends below the largest int64. */
  method AppendRange(cpus: seq<int>, first: int, last: int) returns (grown: seq<int>)
    ensures grown == cpus + Range(first, last)
  {
    grown := cpus;
    var i := first;
    while i <= last
      invariant first <= i && (i <= last + 1 || i == first)
      invariant grown == cpus + Range(first, i - 1)
      decreases last - i
    {
      grown := grown + [i];
      i := i + 1;
    }
    assert first > last ==> Range(first, i - 1) == Range(first, last);
  }

  method ParseCPUList(list: string) returns (r: Parse<seq<int>>)
    ensures r == CPUList(list)
  {
    var ranges := Split(list, ',');
    ghost var results := Parsed(ranges);
    var cpus: seq<int> := [];
    for i := 0 to |ranges|
      invariant Gather(results[..i]) == Done(cpus)
    {
      GatherNext(results, i);
      var grown := AppendPiece(cpus, ranges[i]);
      if !grown.Done? {
        FailureSticks(results, i + 1);
        return grown;
      }
      cpus := grown.value;
    }
    assert results[..|ranges|] == results;
    r := Done(cpus);
  }

  lemma GatherNext(results: seq<Parse<seq<int>>>, i: nat)
    requires i < |results|
    ensures Gather(results[..i + 1]) == Then(Gather(results[..i]), results[i])
  {
    assert results[..i + 1][..i] == results[..i];
  }

  lemma {:induction false} FailureSticks(results: seq<Parse<seq<int>>>, k: nat)
    requires k <= |results| && !Gather(results[..k]).Done?
    ensures Gather(results) == Gather(results[..k])
    decreases |results|
  {
    if k == |results| {
      assert results[..k] == results;
    } else {
      assert results[..|results| - 1][..k] == results[..k];
      FailureSticks(results[..|results| - 1], k);
    }
  }

  /** A list reads to the end exactly when all its pieces do, and is never left exactly when an endless
      range comes before anything malformed. */
  lemma ListReturnsExactly(list: string)
    ensures var results := Parsed(Split(list, ','));
            && (CPUList(list).Done? <==> forall k :: 0 <= k < |results| ==> results[k].Done?)
            && (CPUList(list).Endless? <==>
                  exists k :: 0 <= k < |results| && results[k].Endless? && forall j :: 0 <= j < k ==> results[j].Done?)
  {
    GatherReturnsExactly(Parsed(Split(list, ',')));
  }

  lemma {:induction false} GatherReturnsExactly(results: seq<Parse<seq<int>>>)
    ensures Gather(results).Done? <==> forall k :: 0 <= k < |results| ==> results[k].Done?
    ensures Gather(results).Endless? <==>
            exists k :: 0 <= k < |results| && results[k].Endless? && forall j :: 0 <= j < k ==> results[j].Done?
  {
    if |results| > 0 {
      var front := results[..|results| - 1];
      GatherReturnsExactly(front);
      assert forall k :: 0 <= k < |front| ==> front[k] == results[k];
    }
  }

  lemma ThenIsAssociative(a: Parse<seq<int>>, b: Parse<seq<int>>, c: Parse<seq<int>>)
    ensures Then(Then(a, b), c) == Then(a, Then(b, c))
    ensures Then(a, Done([])) == a
  {
    if a.Done? { assert a.value + [] == a.value; }
    if a.Done? && b.Done? && c.Done? { assert (a.value + b.value) + c.value == a.value + (b.value + c.value); }
  }

  lemma {:induction false} GatherConcat(a: seq<Parse<seq<int>>>, b: seq<Parse<seq<int>>>)
    ensures Gather(a + b) == Then(Gather(a), Gather(b))
    decreases |b|
  {
    if |b| == 0 {
      assert a + b == a;
      ThenIsAssociative(Gather(a), Gather(a), Gather(a));
    } else {
      var front, last := b[..|b| - 1], b[|b| - 1];
      assert a + b == (a + front) + [last];
      GatherSnoc(a + front, last);
      GatherConcat(a, front);
      ThenIsAssociative(Gather(a), Gather(front), last);
    }
  }

  lemma GatherSnoc(front: seq<Parse<seq<int>>>, last: Parse<seq<int>>)
    ensures Gather(front + [last]) == Then(Gather(front), last)
  {
    assert (front + [last])[..|front|] == front;
  }

  lemma ParsedConcat(left: seq<string>, right: seq<string>)
    ensures Parsed(left + right) == Parsed(left) + Parsed(right)
  {
    SeqMapConcat(left, right, ParsePiece);
  }

  lemma SeqMapConcat<A, B>(left: seq<A>, right: seq<A>, f: A -> B)
    ensures seq(|left + right|, i requires 0 <= i < |left + right| => f((left + right)[i]))
         == seq(|left|, i requires 0 <= i < |left| => f(left[i])) + seq(|right|, i requires 0 <= i < |right| => f(right[i]))
  {
  }

  /** Parsing "a,b" is parsing a and, if that returns CPUs, then b. */
  lemma CPUListOfConcat(a: string, b: string)
    ensures CPUList(a + [','] + b) == Then(CPUList(a), CPUList(b))
  {
    SplitConcat(a, b, ',');
    ParsedConcat(Split(a, ','), Split(b, ','));
    GatherConcat(Parsed(Split(a, ',')), Parsed(Split(b, ',')));
  }

  lemma {:induction false} RangeIsInterval(lo: int, hi: int)
    ensures |Range(lo, hi)| == if lo <= hi then hi - lo + 1 else 0
    ensures forall i :: 0 <= i < |Range(lo, hi)| ==> Range(lo, hi)[i] == lo + i
    decreases hi - lo
  {
    if lo <= hi { RangeIsInterval(lo, hi - 1); }
  }

  /** A printed range "m-n" reads back as the CPUs m to n, unless it ends at the largest int64, where the
      source does not come back. */
  lemma PrintedRangeParses(m: nat, n: nat)
    requires m <= MAX_INT && n <= MAX_INT
    ensures CPUList(Itoa(m) + ['-'] + Itoa(n)) == if m <= n == MAX_INT then Endless else Done(Range(m, n))
  {
    AtoiItoa(m);
    AtoiItoa(n);
    PlainRange(Itoa(m), Itoa(n));
    OnePiece(Itoa(m) + ['-'] + Itoa(n));
  }

  /** A printed number reads back as that CPU alone. */
  lemma PrintedNumberParses(n: nat)
    requires n <= MAX_INT
    ensures CPUList(Itoa(n)) == Done([n])
  {
    var s := Itoa(n);
    AtoiItoa(n);
    assert ',' !in s && '-' !in s;
    SplitWhole(s, ',');
    assert IsDigit(s[0]) && IsDigit(s[|s| - 1]);
    NothingToTrim(s);
    SplitWhole(s, '-');
    OnePiece(s);
  }

  lemma PlainRange(a: string, b: string)
    requires a != "" && b != "" && AllDigits(a) && AllDigits(b) && Atoi(a).Some? && Atoi(b).Some?
    ensures Split(a + ['-'] + b, ',') == [a + ['-'] + b]
    ensures ParsePiece(a + ['-'] + b) ==
            if Atoi(a).value <= Atoi(b).value == MAX_INT then Endless else Done(Range(Atoi(a).value, Atoi(b).value))
  {
    var s := a + ['-'] + b;
    assert ',' !in s;
    SplitWhole(s, ',');
    assert IsDigit(s[0]) && IsDigit(s[|s| - 1]);
    NothingToTrim(s);
    SplitAtDash(a, b);
  }

  lemma SplitAtDash(a: string, b: string)
    requires AllDigits(a) && AllDigits(b)
    ensures Split(a + ['-'] + b, '-') == [a, b]
  {
    assert '-' !in a && '-' !in b;
    SplitConcat(a, b, '-');
    SplitWhole(a, '-');
    SplitWhole(b, '-');
  }

  lemma NothingToTrim(s: string)
    requires |s| > 0 && IsDigit(s[0]) && IsDigit(s[|s| - 1])
    ensures TrimSpace(s) == s
  {
  }

  lemma OnePiece(s: string)
    requires Split(s, ',') == [s]
    ensures CPUList(s) == ParsePiece(s)
  {
    var results := Parsed(Split(s, ','));
    assert |results| == 1 && results[0] == ParsePiece(s);
    GatherOne(results);
  }

  lemma GatherOne(results: seq<Parse<seq<int>>>)
    requires |results| == 1
    ensures Gather(results) == results[0]
  {
    var none := results[..0];
    assert |none| == 0 && Gather(none) == Done([]);
    if results[0].Done? { assert [] + results[0].value == results[0].value; }
  }

  // ---- Node labels ----

  datatype LabelKey = NodeCountKey | CpusKey(node: nat) | MemoryKey(node: nat) | GpuNumaKey(gpu: nat)

  type Labels = map<LabelKey, string>

  /** `cpus` keeps repeated ids; availability is its length. */
  datatype NUMANode = NUMANode(id: nat, cpus: seq<int>, memory: int)

  /** NUMA node `i` if both its labels are there and parse; the CPU list is read first. */
  function NumaAt(labels: Labels, i: nat): Parse<NUMANode> {
    if CpusKey(i) !in labels then Malformed
    else
      match CPUList(labels[CpusKey(i)])
      case Malformed => Malformed
      case Endless => Endless
      case Done(cpus) =>
        if MemoryKey(i) !in labels || Atoi(labels[MemoryKey(i)]).None? then Malformed
        else Done(NUMANode(i, cpus, Atoi(labels[MemoryKey(i)]).value))
  }

  function AndNode(front: Parse<seq<NUMANode>>, node: Parse<NUMANode>): Parse<seq<NUMANode>> {
    if !front.Done? || node.Malformed? then front
    else if node.Endless? then Endless
    else Done(front.value + [node.value])
  }

  /** The ones that are there, in order, unless reading one of them never ends. */
  function Present(results: seq<Parse<NUMANode>>): (r: Parse<seq<NUMANode>>)
    ensures !r.Malformed?
  {
    if |results| == 0 then Done([]) else AndNode(Present(results[..|results| - 1]), results[|results| - 1])
  }

  function NumaResults(labels: Labels, count: nat): seq<Parse<NUMANode>> {
    seq(count, i requires 0 <= i => NumaAt(labels, i))
  }

  function NumaNodes(labels: Labels, count: nat): Parse<seq<NUMANode>> { Present(NumaResults(labels, count)) }

  method ParseNode(labels: Labels, i: nat) returns (r: Parse<NUMANode>)
    ensures r == NumaAt(labels, i)
  {
    if CpusKey(i) !in labels { return Malformed; }
    var cpus := ParseCPUList(labels[CpusKey(i)]);
    if cpus.Malformed? { return Malformed; }
    if cpus.Endless? { return Endless; }
    if MemoryKey(i) !in labels { return Malformed; }
    var memory := Atoi(labels[MemoryKey(i)]);
    if memory.None? { return Malformed; }
    r := Done(NUMANode(i, cpus.value, memory.value));
  }

  function NodeCount(labels: Labels): Option<nat> {
    if NodeCountKey !in labels then None
    else match Atoi(labels[NodeCountKey])
      case None => None
      case Some(n) => if n <= 0 then None else Some(n)
  }

  /** The error result: no count, a bad count, or no usable NUMA node. */
  method ParseNUMATopology(labels: Labels) returns (r: Parse<seq<NUMANode>>)
    ensures r == Topology(labels)
  {
    if NodeCountKey !in labels { return Malformed; }
    var count := Atoi(labels[NodeCountKey]);
    if count.None? || count.value <= 0 { return Malformed; }
    r := CollectNodes(labels, count.value);
    if r == Done([]) { return Malformed; }
  }

  /** The loop over the NUMA indices; badly labelled ones are skipped. */
  method CollectNodes(labels: Labels, count: nat) returns (r: Parse<seq<NUMANode>>)
    ensures r == NumaNodes(labels, count)
  {
    ghost var results := NumaResults(labels, count);
    var nodes: seq<NUMANode> := [];
    for i := 0 to count
      invariant Present(results[..i]) == Done(nodes)
    {
      PresentNext(results, i);
      var node := ParseNode(labels, i);
      if node.Endless? {
        NumaNodesAreTheLabelledOnes(labels, count);
        return Endless;
      }
      if node.Done? { nodes := nodes + [node.value]; }
    }
    assert results[..count] == results;
    r := Done(nodes);
  }

  function Topology(labels: Labels): Parse<seq<NUMANode>> {
    var count := NodeCount(labels);
    if count.None? then Malformed
    else match NumaNodes(labels, count.value)
      case Done(nodes) => if |nodes| == 0 then Malformed else Done(nodes)
      case other => other
  }

  lemma PresentNext(results: seq<Parse<NUMANode>>, i: nat)
    requires i < |results|
    ensures Present(results[..i + 1]) == AndNode(Present(results[..i]), results[i])
  {
    assert results[..i + 1][..i] == results[..i];
  }

  lemma {:induction false} PresentReturnsExactly(results: seq<Parse<NUMANode>>)
    ensures Present(results).Endless? <==> exists r :: r in results && r.Endless?
  {
    if |results| > 0 {
      var front := results[..|results| - 1];
      PresentReturnsExactly(front);
      assert results == front + [results[|results| - 1]];
    }
  }

  lemma {:induction false} PresentInOrder(results: seq<Parse<NUMANode>>)
    requires Present(results).Done?
    requires forall i :: 0 <= i < |results| && results[i].Done? ==> results[i].value.id == i
    ensures var nodes := Present(results).value;
            && (forall n :: n in nodes <==> n.id < |results| && results[n.id] == Done(n))
            && forall i, j :: 0 <= i < j < |nodes| ==> nodes[i].id < nodes[j].id
  {
    if |results| > 0 {
      var front := Present(results[..|results| - 1]).value;
      PresentInOrder(results[..|results| - 1]);
      assert forall i :: 0 <= i < |front| ==> front[i] in front;
    }
  }

  /** Parsing comes back exactly when no index has an endless CPU list, and then with exactly the
      well-labelled nodes, each once, in the order of their ids. */
  lemma NumaNodesAreTheLabelledOnes(labels: Labels, count: nat)
    ensures NumaNodes(labels, count).Endless? <==> exists i: nat :: i < count && NumaAt(labels, i).Endless?
    ensures NumaNodes(labels, count).Done? ==>
              var nodes := NumaNodes(labels, count).value;
              && (forall n :: n in nodes <==> n.id < count && NumaAt(labels, n.id) == Done(n))
              && forall i, j :: 0 <= i < j < |nodes| ==> nodes[i].id < nodes[j].id
  {
    var results := NumaResults(labels, count);
    PresentReturnsExactly(results);
    if i: nat :| i < count && NumaAt(labels, i).Endless? { assert results[i] in results; }
    if NumaNodes(labels, count).Done? { PresentInOrder(results); }
  }

  // ---- The strict filter ----

  /** CPU in millicores, memory in bytes, GPUs, per container. */
  datatype Container = Container(milliCpu: nat, memory: nat, gpus: nat)

  datatype Requests = Requests(milliCpu: nat, memory: nat, gpus: nat)

  function Total(containers: seq<Container>): Requests {
    if |containers| == 0 then Requests(0, 0, 0)
    else
      var front, last := Total(containers[..|containers| - 1]), containers[|containers| - 1];
      Requests(front.milliCpu + last.milliCpu, front.memory + last.memory, front.gpus + last.gpus)
  }

  /** Whole cores: millicores are summed first and rounded up once. */
  method GetPodResourceRequests(containers: seq<Container>) returns (cores: nat, memory: nat)
    ensures 1000 * cores >= Total(containers).milliCpu && (cores > 0 ==> 1000 * (cores - 1) < Total(containers).milliCpu)
    ensures memory == Total(containers).memory
  {
    var milli := 0;
    memory := 0;
    for i := 0 to |containers|
      invariant milli == Total(containers[..i]).milliCpu && memory == Total(containers[..i]).memory
    {
      assert containers[..i + 1][..i] == containers[..i];
      milli, memory := milli + containers[i].milliCpu, memory + containers[i].memory;
    }
    assert containers[..|containers|] == containers;
    cores := (milli + 999) / 1000;
  }

  type GpuMapping = map<nat, int>

  /** GPU indices 0 to 15 with a parsable NUMA label. */
  function GpuMappingOf(labels: Labels): (m: GpuMapping)
    ensures forall g :: g in m <==> g < 16 && GpuNumaKey(g) in labels && Atoi(labels[GpuNumaKey(g)]).Some?
    ensures forall g :: g in m ==> Atoi(labels[GpuNumaKey(g)]) == Some(m[g])
  {
    map g: nat | 0 <= g < 16 && GpuNumaKey(g) in labels && Atoi(labels[GpuNumaKey(g)]).Some? ::
      Atoi(labels[GpuNumaKey(g)]).value
  }

  method GetGPUNUMAMapping(labels: Labels) returns (m: GpuMapping)
    ensures m == GpuMappingOf(labels)
  {
    m := map[];
    for i := 0 to 16
      invariant forall g: nat :: g in m <==> g < i && GpuNumaKey(g) in labels && Atoi(labels[GpuNumaKey(g)]).Some?
      invariant forall g: nat :: g in m ==> Atoi(labels[GpuNumaKey(g)]) == Some(m[g])
    {
      if GpuNumaKey(i) in labels {
        var id := Atoi(labels[GpuNumaKey(i)]);
        if id.Some? { m := m[i := id.value]; }
      }
    }
  }

  ghost function GpusAt(mapping: GpuMapping, id: int): set<nat> {
    set g | g in mapping && mapping[g] == id
  }

  method SumGpus(containers: seq<Container>) returns (gpus: nat)
    ensures gpus == Total(containers).gpus
  {
    gpus := 0;
    for i := 0 to |containers|
      invariant gpus == Total(containers[..i]).gpus
    {
      assert containers[..i + 1][..i] == containers[..i];
      gpus := gpus + containers[i].gpus;
    }
    assert containers[..|containers|] == containers;
  }

  /** The counting loop over the mapping. */
  method CountGpusAt(mapping: GpuMapping, id: int) returns (n: nat)
    ensures n == |GpusAt(mapping, id)|
  {
    ghost var local := GpusAt(mapping, id);
    n := 0;
    var todo := mapping.Keys;
    assert local * todo == local;
    while todo != {}
      invariant todo <= mapping.Keys && n + |local * todo| == |local|
      decreases |todo|
    {
      var g :| g in todo;
      OneLess(local, todo, g);
      if mapping[g] == id { n := n + 1; }
      todo := todo - {g};
    }
  }

  /** Enough mapped GPUs on the NUMA node, if GPUs are asked for and mapped at all. */
  ghost predicate GpusFit(gpus: nat, id: int, mapping: GpuMapping) {
    gpus == 0 || |mapping| == 0 || |GpusAt(mapping, id)| >= gpus
  }

  method CanFitGPUsInNUMA(containers: seq<Container>, id: int, mapping: GpuMapping) returns (fits: bool)
    ensures fits <==> GpusFit(Total(containers).gpus, id, mapping)
  {
    var requested := SumGpus(containers);
    if requested == 0 || |mapping| == 0 { return true; }
    var onNuma := CountGpusAt(mapping, id);
    fits := onNuma >= requested;
  }

  /** The NUMA node has the CPUs (a thousand millicores each), the memory and, where GPUs are mapped,
      the GPUs the pod asks for. */
  ghost predicate Fits(node: NUMANode, t: Requests, mapping: GpuMapping) {
    1000 * |node.cpus| >= t.milliCpu && node.memory >= t.memory && GpusFit(t.gpus, node.id, mapping)
  }

  method AnyNodeFits(nodes: seq<NUMANode>, containers: seq<Container>, mapping: GpuMapping) returns (ok: bool)
    ensures ok <==> exists n :: n in nodes && Fits(n, Total(containers), mapping)
  {
    var cores, memory := GetPodResourceRequests(containers);
    for i := 0 to |nodes|
      invariant forall j :: 0 <= j < i ==> !Fits(nodes[j], Total(containers), mapping)
    {
      if |nodes[i].cpus| >= cores && nodes[i].memory >= memory {
        if |mapping| > 0 {
          var gpusFit := CanFitGPUsInNUMA(containers, nodes[i].id, mapping);
          if !gpusFit { continue; }
        }
        assert Fits(nodes[i], Total(containers), mapping);
        return true;
      }
    }
    return false;
  }

  datatype Policy = SingleNumaNode | BestEffort | NoPolicy

  /** Only the strict policy filters, and only nodes on which more than one NUMA node was parsed; there
      it accepts exactly when one of them fits the whole pod. */
  ghost predicate Accepts(policy: Policy, containers: seq<Container>, labels: Labels) {
    || policy != SingleNumaNode || !Topology(labels).Done? || |Topology(labels).value| <= 1
    || exists n :: n in Topology(labels).value && Fits(n, Total(containers), GpuMappingOf(labels))
  }

  method Filter(policy: Policy, containers: seq<Container>, labels: Labels) returns (r: Parse<bool>)
    ensures r.Endless? <==> policy == SingleNumaNode && Topology(labels).Endless?
    ensures !r.Endless? ==> r == Done(Accepts(policy, containers, labels))
  {
    if policy != SingleNumaNode { return Done(true); }
    var topology := ParseNUMATopology(labels);
    if topology.Endless? { return Endless; }
    if topology.Malformed? { return Done(true); }
    if |topology.value| <= 1 { return Done(true); }
    var mapping := GetGPUNUMAMapping(labels);
    var fits := AnyNodeFits(topology.value, containers, mapping);
    r := Done(fits);
  }
}
