/** What the other modules need to know about sequences and sets of numbers. */
module Sequences {

  ghost predicate Distinct(s: seq<nat>) {
    forall i, j :: 0 <= i < j < |s| ==> s[i] != s[j]
  }

  ghost function ToSet(s: seq<nat>): (r: set<nat>) {
    set x | x in s
  }

  lemma {:induction false} Injective(A: set<nat>, f: seq<nat>, B: set<nat>)
    requires forall a :: a in A ==> a < |f| && f[a] in B
    requires forall a, b :: a in A && b in A && a != b ==> f[a] != f[b]
    ensures |A| <= |B|
    decreases |A|
  {
    if A != {} {
      var a :| a in A;
      Injective(A - {a}, f, B - {f[a]});
    }
  }

  ghost function Upto(n: nat): (r: set<nat>)
    ensures forall b: nat :: b in r <==> b < n
  {
    if n == 0 then {} else Upto(n - 1) + {n - 1}
  }

  lemma {:induction false} UptoCount(n: nat)
    ensures |Upto(n)| == n
  {
    if n > 0 {
      UptoCount(n - 1);
    }
  }

  lemma {:induction false} SubsetCount<T>(A: set<T>, B: set<T>)
    requires A <= B
    ensures |A| <= |B|
  {
    assert B == A + (B - A);
  }

  lemma {:induction false} DistinctCount(s: seq<nat>)
    requires Distinct(s)
    ensures |ToSet(s)| == |s|
  {
    if s != [] {
      DistinctCount(s[1..]);
      assert ToSet(s) == {s[0]} + ToSet(s[1..]);
    }
  }
}
