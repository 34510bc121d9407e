/** The PostFilter entry point with its per-gang cooldown (pkg/plugins/preemption/gang_preemption.go),
    and how often a gang can get past it. Times are nanoseconds. */
module GangPreemption {
  import opened Text
  import opened PodGroups
  import opened Preemption

  const MINIMUM_PREEMPTION_GAP: int := 30_000_000_000

  type Attempts = map<string, int>

  predicate CooledDown(last: Attempts, gang: string, now: int) {
    gang in last ==> now - last[gang] >= MINIMUM_PREEMPTION_GAP
  }

  datatype Outcome =
    | NotAGang | CoolingDown | NodeListFailed | NoVictims
    | Preempting(victims: seq<VictimCandidate>, nominatedNode: string)

  class GangPreemptionPlugin {
    var lastPreemptionAttempts: Attempts

    constructor ()
      ensures lastPreemptionAttempts == map[]
    {
      lastPreemptionAttempts := map[];
    }

    /** `checked` and `stored` are the two clock readings: against the last attempt, and as the new one.
        An attempt is stamped before anything can fail. */
    method PostFilter(pod: Pod, listing: Option<seq<Pod>>, nodes: Option<set<string>>, checked: int, stored: int)
      returns (outcome: Outcome, ghost ranked: seq<VictimCandidate>)
      modifies this
      ensures !pod.group.IsGang() <==> outcome.NotAGang?
      ensures pod.group.IsGang() ==>
                var key := GangKey(pod.namespace, pod.group.name);
                && (outcome.CoolingDown? <==> !CooledDown(old(lastPreemptionAttempts), key, checked))
                && lastPreemptionAttempts == if outcome.CoolingDown? then old(lastPreemptionAttempts)
                                             else old(lastPreemptionAttempts)[key := stored]
      ensures outcome.NotAGang? ==> lastPreemptionAttempts == old(lastPreemptionAttempts)
      ensures outcome.NodeListFailed? <==> pod.group.IsGang() && !outcome.CoolingDown? && nodes.None?
      ensures pod.group.IsGang() && !outcome.CoolingDown? && nodes.Some? && listing.None? ==> outcome.NoVictims?
      ensures pod.group.IsGang() && !outcome.CoolingDown? && nodes.Some? && listing.Some? ==>
                var needs := CalculateGangResourceNeeds(pod, pod.group.minAvailable);
                && multiset(ranked) == multiset(Candidates(pod, listing.value, nodes.value)) && Ranked(ranked)
                && (outcome.Preempting? <==> |ranked| > 0 && AtLeast(TotalFreed(ranked[..Cap(|ranked|)]), needs))
                && (outcome.NoVictims? <==> !outcome.Preempting?)
                && (outcome.Preempting? ==>
                      && |outcome.victims| > 0 && GreedyPrefix(ranked, needs, outcome.victims)
                      && Nominated(PodsOf(outcome.victims), outcome.nominatedNode))
    {
      ranked := [];
      if !pod.group.IsGang() { return NotAGang, ranked; }
      var key := GangKey(pod.namespace, pod.group.name);
      if key in lastPreemptionAttempts {
        if checked - lastPreemptionAttempts[key] < MINIMUM_PREEMPTION_GAP { return CoolingDown, ranked; }
      }
      lastPreemptionAttempts := lastPreemptionAttempts[key := stored];
      if nodes.None? { return NodeListFailed, ranked; }
      var needs := CalculateGangResourceNeeds(pod, pod.group.minAvailable);
      var victims, sorted := FindPreemptionVictims(pod, needs, listing, nodes.value);
      ranked := sorted;
      if |victims| == 0 { return NoVictims, ranked; }
      var node := SelectNominatedNode(PodsOf(victims));
      outcome := Preempting(victims, node);
    }
  }

  // ---- How often a gang gets through ----

  /** One PostFilter call of a gang pod: its two clock readings and how many victims it named. */
  datatype Call = Call(gang: string, checked: int, stored: int, named: nat)

  /** The stamps left behind by a sequence of calls. */
  function LastAfter(calls: seq<Call>): Attempts {
    if |calls| == 0 then map[]
    else
      var before := LastAfter(calls[..|calls| - 1]);
      var c := calls[|calls| - 1];
      if CooledDown(before, c.gang, c.checked) then before[c.gang := c.stored] else before
  }

  predicate Passes(calls: seq<Call>, i: nat)
    requires i < |calls|
  {
    CooledDown(LastAfter(calls[..i]), calls[i].gang, calls[i].checked)
  }

  /** A call reads the clock twice, in order; only a call that passes names victims, at most the cap. */
  ghost predicate WellClocked(calls: seq<Call>) {
    forall i :: 0 <= i < |calls| ==>
      calls[i].checked <= calls[i].stored && calls[i].named <= if Passes(calls, i) then MAX_VICTIMS_PER_GANG else 0
  }

  /** The last of the calls is one of the gang's passes inside the window. */
  ghost predicate PassInWindow(calls: seq<Call>, gang: string, lo: int, hi: int)
    requires |calls| > 0
  {
    var c := calls[|calls| - 1];
    c.gang == gang && lo <= c.checked <= hi && Passes(calls, |calls| - 1)
  }

  ghost function PassCount(calls: seq<Call>, gang: string, lo: int, hi: int): nat {
    if |calls| == 0 then 0
    else PassCount(calls[..|calls| - 1], gang, lo, hi) + if PassInWindow(calls, gang, lo, hi) then 1 else 0
  }

  /** Victims named for the gang by calls inside the window. */
  ghost function NamedCount(calls: seq<Call>, gang: string, lo: int, hi: int): nat {
    if |calls| == 0 then 0
    else
      var c := calls[|calls| - 1];
      NamedCount(calls[..|calls| - 1], gang, lo, hi) + if c.gang == gang && lo <= c.checked <= hi then c.named else 0
  }

  lemma PrefixWellClocked(calls: seq<Call>)
    requires |calls| > 0 && WellClocked(calls)
    ensures WellClocked(calls[..|calls| - 1])
  {
    var front := calls[..|calls| - 1];
    forall i | 0 <= i < |front|
      ensures front[i].checked <= front[i].stored && front[i].named <= if Passes(front, i) then MAX_VICTIMS_PER_GANG else 0
    {
      assert front[..i] == calls[..i] && front[i] == calls[i];
    }
  }

  lemma {:induction false} PassesAreSpaced(calls: seq<Call>, gang: string, lo: int, hi: int)
    requires WellClocked(calls) && lo <= hi
    ensures PassCount(calls, gang, lo, hi) <= (hi - lo) / MINIMUM_PREEMPTION_GAP + 1
    ensures var n := PassCount(calls, gang, lo, hi);
            n > 0 ==> gang in LastAfter(calls) && LastAfter(calls)[gang] >= lo + (n - 1) * MINIMUM_PREEMPTION_GAP
    ensures NamedCount(calls, gang, lo, hi) <= MAX_VICTIMS_PER_GANG * PassCount(calls, gang, lo, hi)
  {
    if |calls| > 0 {
      var front := calls[..|calls| - 1];
      PrefixWellClocked(calls);
      PassesAreSpaced(front, gang, lo, hi);
      var last := |calls| - 1;
      assert calls[last].checked <= calls[last].stored && calls[last].named <= if Passes(calls, last) then MAX_VICTIMS_PER_GANG else 0;
      if PassInWindow(calls, gang, lo, hi) {
        AtMostQuotient(PassCount(front, gang, lo, hi), hi - lo);
      }
    }
  }

  lemma AtMostQuotient(n: int, width: int)
    requires width >= 0
    ensures n * MINIMUM_PREEMPTION_GAP <= width ==> n <= width / MINIMUM_PREEMPTION_GAP
  {
  }

  /** In any window, for every call sequence and clock, a gang passes the cooldown at most
      floor(window / 30s) + 1 times, so at most 50 times as many victims are named for it. */
  lemma PreemptionRateIsBounded(calls: seq<Call>, gang: string, lo: int, window: nat)
    requires WellClocked(calls)
    ensures PassCount(calls, gang, lo, lo + window) <= window / 30_000_000_000 + 1
    ensures NamedCount(calls, gang, lo, lo + window) <= 50 * (window / 30_000_000_000 + 1)
  {
    PassesAreSpaced(calls, gang, lo, lo + window);
  }

  // ---- The bound is attained ----

  /** One call every thirty seconds, each naming as many victims as the cap allows. */
  function Steady(gang: string, lo: int, n: nat): seq<Call> {
    seq(n, i requires 0 <= i => var at := lo + i * MINIMUM_PREEMPTION_GAP; Call(gang, at, at, MAX_VICTIMS_PER_GANG))
  }

  /** Thirty seconds after its last stamp a gang does get through again. */
  lemma {:induction false} SteadyCallsPass(gang: string, lo: int, n: nat)
    ensures forall i :: 0 <= i < n ==> Passes(Steady(gang, lo, n), i)
    ensures LastAfter(Steady(gang, lo, n)) == if n == 0 then map[] else map[gang := lo + (n - 1) * MINIMUM_PREEMPTION_GAP]
  {
    if n > 0 {
      SteadyCallsPass(gang, lo, n - 1);
      var calls := Steady(gang, lo, n);
      assert calls[..n - 1] == Steady(gang, lo, n - 1);
      forall i | 0 <= i < n ensures Passes(calls, i) {
        if i < n - 1 {
          assert Passes(Steady(gang, lo, n - 1), i) && Steady(gang, lo, n - 1)[..i] == calls[..i];
        }
      }
    }
  }

  lemma {:induction false} SteadyCount(gang: string, lo: int, hi: int, n: nat)
    requires n > 0 ==> lo + (n - 1) * MINIMUM_PREEMPTION_GAP <= hi
    ensures PassCount(Steady(gang, lo, n), gang, lo, hi) == n
    ensures NamedCount(Steady(gang, lo, n), gang, lo, hi) == MAX_VICTIMS_PER_GANG * n
  {
    if n > 0 {
      SteadyCount(gang, lo, hi, n - 1);
      SteadyCallsPass(gang, lo, n);
      assert Steady(gang, lo, n)[..n - 1] == Steady(gang, lo, n - 1);
    }
  }

  /** For every gang and window, some calls reach the bound on passes and on victims named. */
  lemma PreemptionRateIsAttained(gang: string, lo: int, window: nat) returns (calls: seq<Call>)
    ensures WellClocked(calls)
    ensures PassCount(calls, gang, lo, lo + window) == window / 30_000_000_000 + 1
    ensures NamedCount(calls, gang, lo, lo + window) == 50 * (window / 30_000_000_000 + 1)
  {
    var n := window / MINIMUM_PREEMPTION_GAP + 1;
    calls := Steady(gang, lo, n);
    SteadyCallsPass(gang, lo, n);
    SteadyCount(gang, lo, lo + window, n);
  }
}
