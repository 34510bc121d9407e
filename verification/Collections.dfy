/** Facts about sets, sequences and multisets that several plugins' counting loops share, and one about runs. */
module Collections {

  /** One step of counting the members of `s` among the elements still to visit. */
  lemma OneLess<T>(s: set<T>, todo: set<T>, x: T)
    requires x in todo
    ensures |s * todo| == |s * (todo - {x})| + if x in s then 1 else 0
  {
    assert s * todo == s * (todo - {x}) + if x in s then {x} else {};
  }

  lemma SubsetSize<T>(a: set<T>, b: set<T>)
    requires a <= b
    ensures |a| <= |b|
  {
    assert b == a + (b - a);
  }

  lemma WithoutIndex<T>(b: seq<T>, i: nat)
    requires i < |b|
    ensures multiset(b[..i] + b[i + 1..]) == multiset(b) - multiset{b[i]}
  {
    assert b == b[..i] + [b[i]] + b[i + 1..];
  }

  /** The last element of `a` occurs in `b`, and what is left of `a` fits what is left of `b`. */
  lemma MatchLast<T>(a: seq<T>, b: seq<T>) returns (i: nat)
    requires |a| > 0 && multiset(a) <= multiset(b)
    ensures i < |b| && b[i] == a[|a| - 1]
    ensures multiset(a[..|a| - 1]) <= multiset(b[..i] + b[i + 1..])
  {
    var front, last := a[..|a| - 1], a[|a| - 1];
    assert a == front + [last];
    assert multiset(a) == multiset(front) + multiset{last};
    assert last in multiset(b);
    i :| 0 <= i < |b| && b[i] == last;
    WithoutIndex(b, i);
  }

  /** What holds at first, and is lost by a step exactly when that step breaks it, has held up to `n` exactly
      when no step before `n` broke it. */
  lemma {:induction false} KeptUntilBroken(kept: int --> bool, broken: int --> bool, n: nat)
    requires forall i :: 0 <= i <= n ==> kept.requires(i)
    requires forall j :: 0 <= j < n ==> broken.requires(j)
    requires kept(0) && forall k :: 0 <= k < n && kept(k) ==> (kept(k + 1) <==> !broken(k))
    ensures (forall i :: 0 <= i <= n ==> kept(i)) <==> (forall j :: 0 <= j < n ==> !broken(j))
  {
    if n > 0 {
      KeptUntilBroken(kept, broken, n - 1);
      if kept(n - 1) { assert kept(n) <==> !broken(n - 1); }
    }
  }
}
