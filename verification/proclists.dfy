/**
  The linked lists of proc.c: chains through the processes' `next` fields, with
  a head and a tail pointer each, against the queues of Scheduler.
 */
module ProcLists {
  import opened Seqs
  import opened Scheduler

  datatype Ptrs = Ptrs(head: Link, tail: Link)

  /** The next field of entry i of s leads to entry i + 1. */
  ghost predicate Leads(next: seq<Link>, s: seq<nat>, i: int) {
    0 <= i < |s| && s[i] < |next| && next[s[i]] == if i + 1 < |s| then To(s[i+1]) else Null
  }

  /** The pointers spell out s, from head along next to tail. */
  ghost predicate IsList(next: seq<Link>, pt: Ptrs, s: seq<nat>) {
    && Known(s) && |next| == NPROC
    && (s == [] ==> pt == Ptrs(Null, Null))
    && (s != [] ==> pt == Ptrs(To(s[0]), To(s[|s|-1])))
    && forall i :: 0 <= i < |s| ==> Leads(next, s, i)
  }

  ghost predicate Linked(next: seq<Link>, pts: seq<Ptrs>, q: seq<seq<nat>>) {
    && |pts| == NQ && |q| == NQ && |next| == NPROC
    && forall k :: 0 <= k < NQ ==> IsList(next, pts[k], q[k])
  }

  /** No process is on a queue twice or on two queues. */
  ghost predicate Apart(q: seq<seq<nat>>) {
    && (forall k :: 0 <= k < |q| ==> NoDup(q[k]))
    && (forall k, l, x: nat :: On(q, k, x) && On(q, l, x) ==> k == l)
  }

  lemma PartitionApart(t: Table)
    requires Partition(t)
    ensures Shape(t) && Apart(t.q)
  {
  }

  /** Writing the next field of a process that is not on s leaves s alone. */
  lemma ListFrame(next: seq<Link>, pt: Ptrs, s: seq<nat>, x: nat, l: Link)
    requires IsList(next, pt, s) && x < NPROC && x !in s
    ensures IsList(next[x := l], pt, s)
  {
    var n' := next[x := l];
    forall i | 0 <= i < |s| ensures Leads(n', s, i) { assert Leads(next, s, i); }
  }

  lemma AppendList(next: seq<Link>, pt: Ptrs, s: seq<nat>, p: nat)
    requires IsList(next, pt, s) && NoDup(s) && p < NPROC && p !in s
    ensures s == [] ==> IsList(next[p := Null], Ptrs(To(p), To(p)), s + [p])
    ensures s != [] ==> IsList(next[s[|s|-1] := To(p)][p := Null], Ptrs(pt.head, To(p)), s + [p])
  {
    if s != [] {
      var n' := next[s[|s|-1] := To(p)][p := Null];
      var s' := s + [p];
      forall i | 0 <= i < |s'| ensures Leads(n', s', i) {
        if i < |s| { assert Leads(next, s, i); }
        if i < |s| - 1 { assert s[i] != s[|s|-1]; }
      }
    }
  }

  lemma UnlinkHead(next: seq<Link>, pt: Ptrs, s: seq<nat>)
    requires IsList(next, pt, s) && s != [] && NoDup(s)
    ensures IsList(next, Ptrs(next[s[0]], if |s| == 1 then Null else pt.tail), s[1..])
    ensures pt.tail == To(s[0]) <==> |s| == 1
    ensures Without(s, s[0]) == s[1..]
  {
    var s' := s[1..];
    forall i | 0 <= i < |s'| ensures Leads(next, s', i) {
      assert Leads(next, s, i + 1);
    }
    assert Leads(next, s, 0);
    if |s| > 1 { assert s[0] != s[|s|-1]; }
  }

  /** s' is s without entry j. */
  ghost predicate Cut(s: seq<nat>, j: nat, s': seq<nat>) {
    |s'| == |s| - 1 && forall m :: 0 <= m < |s'| ==> s'[m] == s[if m < j then m else m + 1]
  }

  lemma CutFacts(s: seq<nat>, j: nat)
    requires NoDup(s) && Known(s) && 0 < j < |s| - 1
    ensures var s' := Without(s, s[j]);
      Cut(s, j, s') && Known(s') && |s'| == |s| - 1 && s'[0] == s[0] && s'[|s'|-1] == s[|s|-1]
  {
    hide Without, NoDup;
    var s' := Without(s, s[j]);
    forall m | 0 <= m < |s| - 1
      ensures |s'| == |s| - 1 && s'[m] == s[if m < j then m else m + 1] { WithoutIndex(s, j, m); }
    WithoutIndex(s, j, 0);
    WithoutIndex(s, j, |s| - 2);
  }

  lemma UnlinkLeads(next: seq<Link>, n': seq<Link>, s: seq<nat>, j: nat, s': seq<nat>)
    requires |next| == NPROC && NoDup(s) && Known(s) && 0 < j < |s| - 1 && Cut(s, j, s')
    requires forall m :: 0 <= m < |s| ==> Leads(next, s, m)
    requires n' == next[s[j-1] := next[s[j]]][s[j] := Null]
    ensures forall i :: 0 <= i < |s'| ==> Leads(n', s', i)
  {
    hide NoDup;
    forall i | 0 <= i < |s'| ensures Leads(n', s', i) {
      var m := if i < j then i else i + 1;
      assert Leads(next, s, j - 1) && Leads(next, s, j) && Leads(next, s, m);
      Distinct(s, m, j);
      if m != j - 1 { Distinct(s, m, j - 1); }
      assert s'[i] == s[m];
    }
  }

  lemma UnlinkInner(next: seq<Link>, pt: Ptrs, s: seq<nat>, j: nat, s': seq<nat>)
    requires IsList(next, pt, s) && NoDup(s) && 0 < j < |s| - 1 && s' == Without(s, s[j])
    ensures IsList(next[s[j-1] := next[s[j]]][s[j] := Null], pt, s')
    ensures pt.tail != To(s[j])
  {
    CutFacts(s, j);
    UnlinkCut(next, pt, s, j, s');
  }

  lemma UnlinkCut(next: seq<Link>, pt: Ptrs, s: seq<nat>, j: nat, s': seq<nat>)
    requires IsList(next, pt, s) && NoDup(s) && 0 < j < |s| - 1
    requires Cut(s, j, s') && Known(s') && |s'| == |s| - 1 && s'[0] == s[0] && s'[|s'|-1] == s[|s|-1]
    ensures IsList(next[s[j-1] := next[s[j]]][s[j] := Null], pt, s')
    ensures pt.tail != To(s[j])
  {
    hide NoDup, Leads, Cut;
    UnlinkLeads(next, next[s[j-1] := next[s[j]]][s[j] := Null], s, j, s');
    Distinct(s, j, |s| - 1);
  }

  lemma UnlinkLast(next: seq<Link>, pt: Ptrs, s: seq<nat>)
    requires IsList(next, pt, s) && NoDup(s) && |s| > 1
    ensures var j := |s| - 1;
      IsList(next[s[j-1] := Null][s[j] := Null], Ptrs(pt.head, To(s[j-1])), Without(s, s[j]))
  {
    var j := |s| - 1;
    WithoutAt(s, j);
    var s' := Without(s, s[j]);
    var n' := next[s[j-1] := Null][s[j] := Null];
    assert s' == s[..j];
    forall i | 0 <= i < |s'| ensures Leads(n', s', i) {
      assert Leads(next, s, i) && s[i] != s[j];
      if i + 1 < j { assert s[i] != s[j-1]; }
    }
  }

  /** The pointer that stands before entry j of s. */
  ghost function Ahead(s: seq<nat>, j: nat): Link {
    if j < |s| then To(s[j]) else Null
  }

  lemma WalkOn(next: seq<Link>, pt: Ptrs, q: seq<nat>, kept: seq<nat>, s: seq<nat>, j: nat)
    requires IsList(next, pt, q) && j < |s| && q == kept + s[j..]
    ensures s[j] < |next| == NPROC && next[s[j]] == Ahead(s, j + 1)
    ensures q == (kept + [s[j]]) + s[j+1..] && q[|kept|] == s[j]
  {
    assert Leads(next, q, |kept|);
  }

  lemma WithoutMiddle(kept: seq<nat>, s: seq<nat>, j: nat)
    requires j < |s| && NoDup(kept + s[j..])
    ensures Without(kept + s[j..], s[j]) == kept + s[j+1..]
  {
    WithoutAt(kept + s[j..], |kept|);
  }

  /** The other queues after entries x and y of queue k get new next fields. */
  lemma RemoveFrame(n0: seq<Link>, pts: seq<Ptrs>, q: seq<seq<nat>>, k: nat, x: nat, a: Link, y: nat, b: Link)
    requires Linked(n0, pts, q) && Apart(q) && k < NQ && x in q[k] && y in q[k] && x < NPROC && y < NPROC
    ensures forall l :: 0 <= l < NQ && l != k ==> IsList(n0[x := a][y := b], pts[l], q[l])
  {
    var n1 := n0[x := a][y := b];
    forall l | 0 <= l < NQ && l != k ensures IsList(n1, pts[l], q[l]) {
      assert x !in q[l] && y !in q[l] by {
        assert On(q, k, x) && On(q, k, y) && (x in q[l] ==> On(q, l, x)) && (y in q[l] ==> On(q, l, y));
      }
      ListFrame(n0, pts[l], q[l], x, a);
      ListFrame(n0[x := a], pts[l], q[l], y, b);
    }
  }

  lemma RemoveApart(q: seq<seq<nat>>, k: nat, p: nat)
    requires |q| == NQ && Apart(q) && k < NQ
    ensures Apart(q[k := Without(q[k], p)])
    ensures forall l, x: nat :: On(q[k := Without(q[k], p)], l, x) <==> On(q, l, x) && (l == k ==> x != p)
  {
    hide NoDup, Without;
    WithoutNoDup(q[k], p);
    var u := q[k := Without(q[k], p)];
    forall l, x: nat ensures On(u, l, x) <==> On(q, l, x) && (l == k ==> x != p) {}
  }

  /** The other queues after an addition to queue k. */
  lemma AddFrame(n0: seq<Link>, n1: seq<Link>, pts: seq<Ptrs>, q: seq<seq<nat>>, k: nat, p: nat)
    requires Linked(n0, pts, q) && Apart(q) && k < NQ && p < NPROC && forall l :: !On(q, l, p)
    requires n1 == if q[k] == [] then n0[p := Null] else n0[q[k][|q[k]|-1] := To(p)][p := Null]
    ensures forall l :: 0 <= l < NQ && l != k ==> IsList(n1, pts[l], q[l])
  {
    forall l | 0 <= l < NQ && l != k ensures IsList(n1, pts[l], q[l]) {
      assert p !in q[l] by { assert !On(q, l, p); }
      if q[k] != [] {
        var x := q[k][|q[k]|-1];
        assert x !in q[l] by { assert On(q, k, x) && (x in q[l] ==> On(q, l, x)); }
        ListFrame(n0, pts[l], q[l], x, To(p));
        ListFrame(n0[x := To(p)], pts[l], q[l], p, Null);
      } else {
        ListFrame(n0, pts[l], q[l], p, Null);
      }
    }
  }

  lemma AddApart(q: seq<seq<nat>>, k: nat, p: nat)
    requires |q| == NQ && Apart(q) && k < NQ && forall l :: !On(q, l, p)
    ensures Apart(q[k := q[k] + [p]])
  {
    hide NoDup;
    assert p !in q[k] by { assert !On(q, k, p); }
    AppendNoDup(q[k], p);
    var u := q[k := q[k] + [p]];
    forall l, x: nat ensures On(u, l, x) <==> On(q, l, x) || (l == k && x == p) {}
  }
}
