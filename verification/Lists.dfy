/** Occurrences and distinctness in sequences. */
module Lists {

  predicate Distinct(s: seq<nat>) {
    forall i, j :: 0 <= i < j < |s| ==> s[i] != s[j]
  }

  /** How often x occurs. */
  function Occ<T(==)>(s: seq<T>, x: T): nat
    decreases |s|
  {
    if s == [] then 0 else Occ(s[..|s| - 1], x) + (if s[|s| - 1] == x then 1 else 0)
  }

  lemma {:induction false} OccJoin<T>(a: seq<T>, b: seq<T>, x: T)
    ensures Occ(a + b, x) == Occ(a, x) + Occ(b, x)
    decreases |b|
  {
    if b == [] {
      assert a + b == a;
    } else {
      assert (a + b)[..|a + b| - 1] == a + b[..|b| - 1];
      OccJoin(a, b[..|b| - 1], x);
    }
  }

  /** ... at the end of a list. */
  lemma {:induction false} OccSnoc<T>(a: seq<T>, y: T, x: T)
    ensures Occ(a + [y], x) == Occ(a, x) + (if x == y then 1 else 0)
  {
    assert (a + [y])[..|a|] == a;
  }

  lemma {:induction false} OccIff<T>(s: seq<T>, x: T)
    ensures x in s <==> Occ(s, x) >= 1
    decreases |s|
  {
    if s != [] {
      OccIff(s[..|s| - 1], x);
    }
  }

  /** Distinct numbers below n: there are at most n of them. */
  lemma {:induction false} DistinctBelow(s: seq<nat>, n: nat)
    requires Distinct(s) && forall i :: 0 <= i < |s| ==> s[i] < n
    ensures |s| <= n
  {
    var elements := set i | 0 <= i < |s| :: s[i];
    DistinctSize(s, |s|);
    SubsetSize(elements, Below(n));
  }

  ghost function Below(n: nat): (s: set<nat>)
    ensures |s| == n && forall x: nat :: x in s <==> x < n
  {
    if n == 0 then {} else Below(n - 1) + {n - 1}
  }

  /** ... and n of them leave none out. */
  lemma {:induction false} Onto(s: seq<nat>, k: nat)
    requires Distinct(s) && k < |s| && forall i :: 0 <= i < |s| ==> s[i] < |s|
    ensures k in s
  {
    var image := set i | 0 <= i < |s| :: s[i];
    DistinctSize(s, |s|);
    if k !in s {
      SubsetSize(image, Below(|s|) - {k});
    }
  }

  lemma {:induction false} DistinctSize(s: seq<nat>, n: nat)
    requires Distinct(s) && n <= |s|
    ensures |set i | 0 <= i < n :: s[i]| == n
    decreases n
  {
    if n > 0 {
      DistinctSize(s, n - 1);
      var a, b := set i | 0 <= i < n - 1 :: s[i], set i | 0 <= i < n :: s[i];
      assert b == a + {s[n - 1]} && s[n - 1] !in a;
    }
  }

  lemma {:induction false} SubsetSize(a: set<nat>, b: set<nat>)
    requires a <= b
    ensures |a| <= |b|
    decreases |a|
  {
    if a != {} {
      var x :| x in a;
      SubsetSize(a - {x}, b - {x});
    }
  }
}
