/**
  Pipes (pipe.c).  A section is what one process does while it holds the pipe's
  lock: from acquire, or the return of sleep, to release or the next sleep.
 */
module Pipes {
  type Byte = x: int | 0 <= x < 256
  type Uint = x: int | 0 <= x < 0x1_0000_0000

  /** The ring index must survive the wrap of the 32-bit counters. */
  type PipeSize = x: nat | 0 < x < 0x1_0000_0000 && 0x1_0000_0000 % x == 0 witness 512
  const PIPESIZE: PipeSize

  /** Everything ever stored, and how much of it has been read. */
  datatype State = State(stored: seq<Byte>, taken: nat, readopen: bool, writeopen: bool)

  ghost predicate Fits(s: State) {
    s.taken <= |s.stored| <= s.taken + PIPESIZE
  }

  function Room(s: State): int {
    s.taken + PIPESIZE - |s.stored|
  }

  datatype WriteResult = Written | WriteFailed | WriteWaits(stored: nat)
  datatype ReadResult = Got(bytes: seq<Byte>) | ReadFailed | ReadWaits

  /** A section of pipewrite with `rest` still to write: as much as there is room for, in order. */
  function WriteSection(s: State, rest: seq<Byte>, killed: bool): (State, WriteResult)
    requires Room(s) >= 0
  {
    if |rest| <= Room(s) then (s.(stored := s.stored + rest), Written)
    else
      (s.(stored := s.stored + rest[..Room(s)]), if !s.readopen || killed then WriteFailed else WriteWaits(Room(s)))
  }

  /** A section of piperead: the oldest bytes not yet read, at most n; none only if the write end is closed. */
  function ReadSection(s: State, n: nat, killed: bool): (State, ReadResult)
    requires s.taken <= |s.stored|
  {
    if s.taken == |s.stored| && s.writeopen then (s, if killed then ReadFailed else ReadWaits)
    else
      var k := if n < |s.stored| - s.taken then n else |s.stored| - s.taken;
      (s.(taken := s.taken + k), Got(s.stored[s.taken..s.taken+k]))
  }

  /** pipewrite stores, in order, as much of what is left as fits; it stops short only at a full pipe. */
  lemma WriteStores(s: State, rest: seq<Byte>, killed: bool)
    requires Fits(s)
    ensures var (t, r) := WriteSection(s, rest, killed);
      && Fits(t) && t == s.(stored := t.stored) && s.stored <= t.stored && t.stored[|s.stored|..] <= rest
      && (r == Written <==> t.stored == s.stored + rest)
      && (r != Written ==> Room(t) == 0)
      && (r == WriteFailed ==> !s.readopen || killed)
      && (r.WriteWaits? ==> s.readopen && !killed && t.stored == s.stored + rest[..r.stored] && r.stored < |rest|)
  {
    var (t, r) := WriteSection(s, rest, killed);
    var k := if |rest| <= Room(s) then |rest| else Room(s);
    assert t.stored[|s.stored|..] == rest[..k];
    assert k < |rest| ==> |t.stored| < |s.stored + rest|;
  }

  /** piperead takes the oldest bytes not yet read, n of them or all; it waits or fails only at an empty open pipe. */
  lemma ReadTakes(s: State, n: nat, killed: bool)
    requires Fits(s)
    ensures var (t, r) := ReadSection(s, n, killed);
      && Fits(t) && t == s.(taken := t.taken) && s.taken <= t.taken
      && (r.Got? ==> r.bytes == s.stored[s.taken..t.taken] && |r.bytes| <= n)
      && (r.Got? && |r.bytes| < n ==> t.taken == |t.stored|)
      && (!r.Got? <==> s.taken == |s.stored| && s.writeopen)
      && (r == ReadFailed ==> killed && t == s) && (r == ReadWaits ==> !killed && t == s)
  {
    var k := if n < |s.stored| - s.taken then n else |s.stored| - s.taken;
    assert |s.stored[s.taken..s.taken+k]| == k;
  }

  class Pipe {
    var data: array<Byte>
    var nread: Uint
    var nwrite: Uint
    var readopen: bool
    var writeopen: bool
    ghost var stored: seq<Byte>
    ghost var taken: nat

    ghost function View(): State
      reads this
    {
      State(stored, taken, readopen, writeopen)
    }

    ghost predicate Valid()
      reads this, data
    {
      && Fits(View()) && data.Length == PIPESIZE
      && nread == Wrap(taken) && nwrite == Wrap(|stored|)
      && forall j: nat :: taken <= j < |stored| ==> data[Slot(j)] == stored[j]
    }

    constructor ()
      ensures Valid() && fresh(data) && View() == State([], 0, true, true)
    {
      data := new Byte[PIPESIZE];
      nread, nwrite, readopen, writeopen := 0, 0, true, true;
      stored, taken := [], 0;
    }

    /** pipewrite from byte i0 of addr on. */
    method Write(addr: seq<Byte>, i0: nat, killed: bool) returns (r: WriteResult)
      requires Valid() && i0 <= |addr|
      modifies this`nwrite, this`stored, data
      ensures Valid() && data == old(data) && (View(), r) == WriteSection(old(View()), addr[i0..], killed)
      ensures old(stored) <= stored && stored[|old(stored)|..] <= addr[i0..]
      ensures (r == Written <==> stored == old(stored) + addr[i0..]) && (r != Written ==> Room(View()) == 0)
    {
      hide Wrap, Slot;
      WriteStores(View(), addr[i0..], killed);
      var i := i0;
      while i < |addr|
        invariant i0 <= i <= |addr| && Valid() && data == old(data)
        invariant stored == old(stored) + addr[i0..i]
      {
        CountersMeet(|stored|, taken);
        if nwrite == Wrap(nread + PIPESIZE) {
          assert addr[i0..i] == addr[i0..][..i-i0];
          if !readopen || killed { return WriteFailed; }
          return WriteWaits(i - i0);
        }
        Store(addr[i]);
        assert addr[i0..i+1] == addr[i0..i] + [addr[i]];
        i := i + 1;
      }
      assert addr[i0..i] == addr[i0..];
      return Written;
    }

    /** p->data[p->nwrite++ % PIPESIZE] = b */
    method Store(b: Byte)
      requires Valid() && |stored| < taken + PIPESIZE
      modifies this`nwrite, this`stored, data
      ensures Valid() && stored == old(stored) + [b]
    {
      hide Wrap, Slot;
      ghost var n := |stored|;
      Index(n);
      forall j: nat | taken <= j < n ensures Slot(j) != Slot(n) { Apart(j, n); }
      data[Slot(nwrite)] := b;
      stored := stored + [b];
      Next32(n);
      nwrite := Wrap(nwrite + 1);
    }

    method Read(n: nat, killed: bool) returns (r: ReadResult)
      requires Valid()
      modifies this`nread, this`taken
      ensures Valid() && (View(), r) == ReadSection(old(View()), n, killed)
      ensures r.Got? ==> r.bytes == stored[old(taken)..taken] && |r.bytes| <= n && (|r.bytes| < n ==> taken == |stored|)
    {
      hide Wrap, Slot;
      CountersMeet(|stored|, taken);
      if nread == nwrite && writeopen { return if killed then ReadFailed else ReadWaits; }
      var i, addr := 0, [];
      while i < n
        invariant 0 <= i <= n && Valid() && taken == old(taken) + i && addr == stored[old(taken)..taken]
      {
        CountersMeet(|stored|, taken);
        if nread == nwrite { break; }
        Index(taken);
        addr := addr + [data[Slot(nread)]];
        Next32(taken);
        nread := Wrap(nread + 1);
        taken := taken + 1;
        i := i + 1;
      }
      CountersMeet(|stored|, taken);
      return Got(addr);
    }

    /** Returns whether the pipe itself is given back. */
    method Close(writable: bool) returns (gone: bool)
      requires Valid()
      modifies this`readopen, this`writeopen
      ensures Valid() && View() == CloseEnd(old(View()), writable) && (gone <==> !readopen && !writeopen)
    {
      if writable { writeopen := false; } else { readopen := false; }
      gone := !readopen && !writeopen;
    }
  }

  function CloseEnd(s: State, writable: bool): State {
    if writable then s.(writeopen := false) else s.(readopen := false)
  }

  // ---- 32-bit counters and ring positions ----

  function Wrap(n: nat): (w: Uint) {
    n % 0x1_0000_0000
  }

  function Slot(n: nat): (k: nat)
    ensures k < PIPESIZE
  {
    n % PIPESIZE
  }

  /** Equality of the wrapped counters tells an empty and a full pipe. */
  lemma CountersMeet(w: nat, r: nat)
    requires r <= w <= r + PIPESIZE
    ensures Wrap(w) == Wrap(r) <==> w == r
    ensures Wrap(w) == Wrap(Wrap(r) + PIPESIZE) <==> w == r + PIPESIZE
  {
    var qr, qw := r / 0x1_0000_0000, w / 0x1_0000_0000;
    assert qr <= qw <= qr + 1;
  }

  lemma Next32(n: nat)
    ensures Wrap(Wrap(n) + 1) == Wrap(n + 1)
  {
  }

  lemma Scale(p: nat, d: nat)
    requires d >= 1
    ensures p * d >= p
  {
  }

  lemma DivUnique(x: nat, p: nat, q: nat, r: nat)
    requires p > 0 && r < p && x == p * q + r
    ensures x / p == q && x % p == r
  {
    var q', r' := x / p, x % p;
    assert x == p * q' + r';
    if q > q' { Scale(p, q - q'); }
    if q < q' { Scale(p, q' - q); }
    assert p * (q - q') == p * q - p * q' && p * (q' - q) == p * q' - p * q;
  }

  /** The wrapped counter gives the ring position, because PIPESIZE divides 2^32. */
  lemma Index(n: nat)
    ensures Slot(Wrap(n)) == Slot(n)
  {
    var p: nat, m := PIPESIZE, 0x1_0000_0000;
    var k, q, w := m / p, n / m, n % m;
    assert m == p * k;
    assert n == m * q + w;
    var a, r := w / p, w % p;
    assert w == p * a + r;
    assert m * q == p * (k * q) by { assert m * q == (p * k) * q; }
    assert p * (k * q) + p * a == p * (k * q + a);
    DivUnique(n, p, k * q + a, r);
  }

  /** Fewer than PIPESIZE bytes apart means different ring positions. */
  lemma Apart(j: nat, n: nat)
    requires j < n < j + PIPESIZE
    ensures Slot(j) != Slot(n)
  {
    var p: nat := PIPESIZE;
    var qj, qn := j / p, n / p;
    assert j == p * qj + Slot(j) && n == p * qn + Slot(n);
    if qn > qj { Scale(p, qn - qj); }
    if qn < qj { Scale(p, qj - qn); }
    assert p * (qn - qj) == p * qn - p * qj;
    assert qn == qj ==> Slot(j) != Slot(n);
  }
}
