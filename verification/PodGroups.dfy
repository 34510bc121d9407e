/** Gang identity as every plugin reads it from pod labels (pkg/utils/pod.go). */
module PodGroups {
  import opened Text

  /** The label keys that decide gang membership, by role; `KeyText` gives their spelling. */
  datatype LabelKey = NameKey | MinKey | LegacyNameKey | LegacyMinKey | OtherKey(text: string)

  type Labels = map<LabelKey, string>

  function KeyText(k: LabelKey): string {
    match k
    case NameKey => "pod-group.scheduling.kubenexus.io/name"
    case MinKey => "pod-group.scheduling.kubenexus.io/min-available"
    case LegacyNameKey => "pod-group.scheduling.sigs.k8s.io/name"
    case LegacyMinKey => "pod-group.scheduling.sigs.k8s.io/min-available"
    case OtherKey(text) => text
  }

  /** Kubernetes namespaces are DNS labels; all that matters here is that they hold no slash. */
  type Namespace = ns: string | '/' !in ns witness ""

  /** The three outcomes of reading the labels: no group, a group, or a malformed minimum (an error). */
  datatype Membership = Ungrouped | Member(name: string, minAvailable: int) | Malformed {

    /** A pod takes part in gang scheduling when its group wants at least two members. */
    predicate IsGang() {
      Member? && name != "" && minAvailable > 1
    }

    /** The group name alone; empty for an ungrouped or malformed pod. */
    function GroupName(): string {
      if Member? then name else ""
    }
  }

  /** A Go map lookup whose missing value is the empty string. */
  function Lookup(labels: Labels, key: LabelKey): string {
    if key in labels then labels[key] else ""
  }

  /** New label if present and non-empty, else the legacy one. */
  function EitherLabel(labels: Labels, key: LabelKey, legacy: LabelKey): string {
    if Lookup(labels, key) != "" then Lookup(labels, key) else Lookup(labels, legacy)
  }

  function GetPodGroupLabels(labels: Labels): (m: Membership)
    ensures m.Member? ==> m.name != "" && m.minAvailable >= 1
    ensures m.Member? ==> m.name == Lookup(labels, NameKey) || (Lookup(labels, NameKey) == "" && m.name == Lookup(labels, LegacyNameKey))
    ensures m.Member? ==> Atoi(EitherLabel(labels, MinKey, LegacyMinKey)) == Some(m.minAvailable)
    ensures m.Ungrouped? <==> (Lookup(labels, NameKey) == "" && Lookup(labels, LegacyNameKey) == "")
                              || (Lookup(labels, MinKey) == "" && Lookup(labels, LegacyMinKey) == "")
    ensures m.Malformed? ==>
              var minimum := Atoi(EitherLabel(labels, MinKey, LegacyMinKey)); minimum.Some? ==> minimum.value < 1
  {
    var name := EitherLabel(labels, NameKey, LegacyNameKey);
    var minText := EitherLabel(labels, MinKey, LegacyMinKey);
    if name == "" || minText == "" then Ungrouped
    else match Atoi(minText)
      case None => Malformed
      case Some(v) => if v < 1 then Malformed else Member(name, v)
  }

  /** Legacy labels mean what the new ones mean. */
  lemma LegacyLabelsAreEquivalent(modern: Labels, legacy: Labels)
    requires modern.Keys !! {LegacyNameKey, LegacyMinKey} && legacy.Keys !! {NameKey, MinKey}
    requires Lookup(legacy, LegacyNameKey) == Lookup(modern, NameKey)
    requires Lookup(legacy, LegacyMinKey) == Lookup(modern, MinKey)
    ensures GetPodGroupLabels(legacy) == GetPodGroupLabels(modern)
  {
  }

  /** A group name and a printed minimum, under either pair of keys, read back as that membership. */
  lemma PrintedLabelsReadBack(g: string, n: nat)
    requires g != "" && 1 <= n <= MAX_INT
    ensures GetPodGroupLabels(map[NameKey := g, MinKey := Itoa(n)]) == Member(g, n)
    ensures GetPodGroupLabels(map[LegacyNameKey := g, LegacyMinKey := Itoa(n)]) == Member(g, n)
  {
    AtoiItoa(n);
  }

  /** Whatever else a pod carries, it schedules as a gang exactly when one of the two name labels is not
      empty and the minimum, the new label's unless that is empty, reads as 2 or more; and it has a group
      name at all exactly when that reads as 1 or more. */
  lemma GangsWantTwoOrMore(labels: Labels)
    ensures var m := GetPodGroupLabels(labels);
            var minimum := Atoi(if Lookup(labels, MinKey) != "" then Lookup(labels, MinKey) else Lookup(labels, LegacyMinKey));
            var named := Lookup(labels, NameKey) != "" || Lookup(labels, LegacyNameKey) != "";
            && (m.IsGang() <==> named && minimum.Some? && minimum.value >= 2)
            && (m.GroupName() != "" <==> named && minimum.Some? && minimum.value >= 1)
            && (m.GroupName() != "" ==>
                  m.GroupName() == (if Lookup(labels, NameKey) != "" then labels[NameKey] else labels[LegacyNameKey]))
  {
    assert Atoi("").None?;
  }

  function GangKey(namespace: string, group: string): string {
    namespace + "/" + group
  }

  /** A key names one gang only. */
  lemma {:induction false} GangKeyInjective(ns1: Namespace, g1: string, ns2: Namespace, g2: string)
    requires GangKey(ns1, g1) == GangKey(ns2, g2)
    ensures ns1 == ns2 && g1 == g2
  {
    assert GangKey(ns1, g1)[|ns1|] == '/' && GangKey(ns2, g2)[|ns2|] == '/';
    assert |ns1| == |ns2|;
    assert ns1 == GangKey(ns1, g1)[..|ns1|] == ns2;
    assert g1 == GangKey(ns1, g1)[|ns1| + 1..] == g2;
  }

  /** Splitting a key on slashes recovers the gang exactly when neither part holds one. */
  lemma GangKeySplit(ns: string, g: string)
    ensures |Split(GangKey(ns, g), '/')| == 2 <==> '/' !in ns && '/' !in g
    ensures '/' !in ns && '/' !in g ==> Split(GangKey(ns, g), '/') == [ns, g]
  {
    SplitConcat(ns, g, '/');
    if '/' !in ns && '/' !in g {
      SplitWhole(ns, '/');
      SplitWhole(g, '/');
    } else if |Split(GangKey(ns, g), '/')| == 2 {
      JoinSplit(ns, '/');
      JoinSplit(g, '/');
    }
  }
}
