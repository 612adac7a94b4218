/** Sequences as the contents of rt_list rings, head excluded. */
module Lists {

  ghost predicate Distinct<T>(s: seq<T>) {
    forall i, j :: 0 <= i < j < |s| ==> s[i] != s[j]
  }

  ghost function Elements<T(!new)>(s: seq<T>): (e: set<T>)
    ensures forall x :: x in e <==> x in s
  {
    set x | x in s
  }

  /** s with x unlinked. */
  function Without<T(==, !new)>(s: seq<T>, x: T): (r: seq<T>)
    ensures x !in r
    ensures forall y :: y in r <==> y in s && y != x
  {
    if s == [] then []
    else if s[0] == x then Without(s[1..], x)
    else [s[0]] + Without(s[1..], x)
  }

  /** s with x linked in front of position k. */
  function Splice<T>(s: seq<T>, k: nat, x: T): (r: seq<T>)
    requires k <= |s|
    ensures |r| == |s| + 1 && r[k] == x
  {
    s[..k] + [x] + s[k..]
  }

  lemma SpliceMembers<T>(s: seq<T>, k: nat, x: T)
    requires k <= |s|
    ensures forall y :: y in Splice(s, k, x) <==> y == x || y in s
  {
    assert s == s[..k] + s[k..];
  }

  lemma SpliceDistinct<T>(s: seq<T>, k: nat, x: T)
    requires k <= |s| && Distinct(s) && x !in s
    ensures Distinct(Splice(s, k, x))
  {
  }

  lemma {:induction false} WithoutDistinct<T(!new)>(s: seq<T>, x: T)
    requires Distinct(s)
    ensures Distinct(Without(s, x))
    ensures |Without(s, x)| == if x in s then |s| - 1 else |s|
  {
    if s != [] {
      WithoutDistinct(s[1..], x);
      assert s == [s[0]] + s[1..];
      if s[0] == x {
        WithoutAbsent(s[1..], x);
      } else {
        var w := Without(s[1..], x);
        forall j | 0 <= j < |w|
          ensures w[j] != s[0]
        {
          assert w[j] in s[1..];
        }
      }
    }
  }

  lemma {:induction false} WithoutAbsent<T(!new)>(s: seq<T>, x: T)
    requires x !in s
    ensures Without(s, x) == s
  {
    if s != [] {
      assert s[0] in s;
      WithoutAbsent(s[1..], x);
    }
  }

  /** In a ring of distinct nodes unlinking x cuts it out of its position. */
  lemma {:induction false} WithoutAt<T(!new)>(s: seq<T>, k: nat)
    requires k < |s| && Distinct(s)
    ensures Without(s, s[k]) == s[..k] + s[k + 1..]
  {
    if k == 0 {
      WithoutAbsent(s[1..], s[0]);
    } else {
      WithoutAt(s[1..], k - 1);
      assert s[1..][..k - 1] == s[1..k] && s[1..][k..] == s[k + 1..];
      assert [s[0]] + s[1..k] == s[..k];
    }
  }
}
