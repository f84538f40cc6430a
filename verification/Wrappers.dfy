/** What the other modules share */
module Wrappers {

  datatype Option<T> = None | Some(value: T)

  lemma SubsetSize<T>(a: set<T>, b: set<T>)
    requires a <= b
    ensures |a| <= |b|
  {
    assert b == a + (b - a);
  }

  // ----- lists of entries

  ghost predicate NoDuplicates(l: seq<nat>) {
    forall i, j :: 0 <= i < j < |l| ==> l[i] != l[j]
  }

  /** The list after `list_del` of entry `x` */
  function Without(l: seq<nat>, x: nat): seq<nat> {
    if l == [] then [] else if l[0] == x then l[1..] else [l[0]] + Without(l[1..], x)
  }

  lemma {:induction false} WithoutFacts(l: seq<nat>, x: nat)
    requires NoDuplicates(l)
    ensures NoDuplicates(Without(l, x)) && forall y :: y in Without(l, x) <==> y in l && y != x
    ensures |Without(l, x)| == |l| - if x in l then 1 else 0
  {
    if l != [] {
      WithoutFacts(l[1..], x);
      var w := Without(l[1..], x);
      assert l == [l[0]] + l[1..];
      assert forall j :: 0 <= j < |w| ==> w[j] in w && w[j] in l[1..];
    }
  }

  /** The entries before and behind `x` stay, in their order; a list without `x` stays as it is. */
  lemma {:induction false} WithoutCuts(l: seq<nat>, x: nat, i: nat)
    requires i <= |l| && x !in l[..i] && (i < |l| ==> l[i] == x)
    ensures Without(l, x) == if i < |l| then l[..i] + l[i + 1..] else l
  {
    if i > 0 {
      assert l[1..][..i - 1] == l[..i][1..];
      WithoutCuts(l[1..], x, i - 1);
    }
  }
}
