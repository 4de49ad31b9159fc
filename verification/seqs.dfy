/** Finite sequences without repetition: removal, pigeonhole. */
module Seqs {

  ghost predicate NoDup<T>(s: seq<T>) {
    forall i, j :: 0 <= i < j < |s| ==> s[i] != s[j]
  }

  /** s without the first occurrence of x. */
  function Without<T(==)>(s: seq<T>, x: T): (r: seq<T>)
    ensures x !in s ==> r == s
    ensures x in s ==> |r| == |s| - 1
  {
    if s == [] then []
    else if s[0] == x then s[1..]
    else [s[0]] + Without(s[1..], x)
  }

  lemma {:induction false} WithoutAt<T>(s: seq<T>, k: nat)
    requires k < |s|
    requires forall l :: 0 <= l < k ==> s[l] != s[k]
    ensures Without(s, s[k]) == s[..k] + s[k+1..]
  {
    if k > 0 {
      assert s[1..][k-1] == s[k];
      WithoutAt(s[1..], k - 1);
      assert s[..k] == [s[0]] + s[1..][..k-1];
      assert s[k+1..] == s[1..][k..];
    }
  }

  /** Where the entries of s without its k-th come from. */
  lemma WithoutIndex<T>(s: seq<T>, k: nat, i: nat)
    requires NoDup(s) && k < |s| && i < |s| - 1
    ensures |Without(s, s[k])| == |s| - 1
    ensures Without(s, s[k])[i] == s[if i < k then i else i + 1]
  {
    hide Without;
    WithoutAt(s, k);
  }

  lemma Distinct<T>(s: seq<T>, i: nat, j: nat)
    requires NoDup(s) && i < |s| && j < |s| && i != j
    ensures s[i] != s[j]
  {
  }

  lemma {:induction false} WithoutNoDup<T>(s: seq<T>, x: T)
    requires NoDup(s)
    ensures NoDup(Without(s, x)) && x !in Without(s, x)
    ensures forall y :: y != x ==> (y in Without(s, x) <==> y in s)
  {
    if s != [] {
      assert s == [s[0]] + s[1..];
      if s[0] != x {
        WithoutNoDup(s[1..], x);
        assert s[0] !in s[1..];
      }
    }
  }

  lemma AppendNoDup<T>(s: seq<T>, x: T)
    requires NoDup(s) && x !in s
    ensures NoDup(s + [x])
    ensures forall y :: y in s + [x] <==> y in s || y == x
  {
    assert (s + [x])[|s|] == x;
    assert forall i :: 0 <= i < |s| ==> (s + [x])[i] == s[i];
  }

  lemma ConsNoDup<T>(x: T, s: seq<T>)
    requires NoDup(s) && x !in s
    ensures NoDup([x] + s)
  {
    forall i, j | 0 <= i < j < |s| + 1 ensures ([x] + s)[i] != ([x] + s)[j] {
      assert ([x] + s)[j] == s[j-1];
    }
  }

  function Elements(s: seq<nat>): set<nat> {
    set x | x in s
  }

  lemma {:induction false} ElementsCount(s: seq<nat>)
    requires NoDup(s)
    ensures |Elements(s)| == |s|
  {
    if s != [] {
      var front, x := s[..|s|-1], s[|s|-1];
      assert s == front + [x];
      ElementsCount(front);
      assert Elements(s) == Elements(front) + {x} && x !in front;
    }
  }

  lemma ElementsNone()
    ensures Elements([]) == {}
  {
  }

  lemma ElementsNext(s: seq<nat>, j: nat)
    requires j < |s|
    ensures Elements(s[..j+1]) == Elements(s[..j]) + {s[j]}
  {
    assert s[..j+1] == s[..j] + [s[j]];
  }

  /** The numbers from a up to b. */
  function Span(a: nat, b: nat): (r: set<nat>)
    ensures forall x: nat :: x in r <==> a <= x < b
    ensures |r| == if a <= b then b - a else 0
    decreases b
  {
    if b <= a then {} else Span(a, b - 1) + {b - 1}
  }

  lemma CardAdd(a: set<nat>, x: nat)
    ensures |a + {x}| == if x in a then |a| else |a| + 1
  {
    if x in a { assert a + {x} == a; }
  }

  lemma {:induction false} CardinalityMono(a: set<nat>, b: set<nat>)
    requires a <= b
    ensures |a| <= |b|
  {
    if a != {} {
      var x :| x in a;
      CardinalityMono(a - {x}, b - {x});
    }
  }

  /** n distinct numbers below n leave none of them out. */
  lemma Pigeonhole(s: seq<nat>, n: nat)
    requires |s| == n && NoDup(s) && forall k :: 0 <= k < n ==> s[k] < n
    ensures forall j :: 0 <= j < n ==> j in s
  {
    var seen, all := Elements(s), Span(0, n);
    ElementsCount(s);
    if !(all <= seen) {
      var j :| j in all && j !in seen;
      CardinalityMono(seen, all - {j});
    }
    forall j | 0 <= j < n ensures j in s { assert j in all; }
  }
}
