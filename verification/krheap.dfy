/**
  The blocks of the K&R allocator (umalloc.c), apart from how they are linked.
  Addresses count headers (8 bytes).  `who` maps every unit gained from sbrk to
  the block it belongs to, so blocks are disjoint and tile that memory.
 */
module KrHeap {

  /** Where the static header `base` is: below all memory that sbrk returns. */
  const BASE: nat

  /** ring: the free list in ring order from base on; live: the blocks handed out. */
  datatype Heap = Heap(ring: seq<int>, size: map<int, int>, live: set<int>, who: map<int, int>)

  ghost predicate Sorted(s: seq<int>) {
    forall i, j :: 0 <= i < j < |s| ==> s[i] < s[j]
  }

  ghost predicate Block(h: Heap, b: int) {
    b in h.size && (b in h.live || (b in h.ring && b != BASE))
  }

  function End(h: Heap, b: int): int
    requires b in h.size
  {
    b + h.size[b]
  }

  ghost predicate Shape(h: Heap) {
    && h.ring != [] && h.ring[0] == BASE && Sorted(h.ring)
    && (forall i :: 0 <= i < |h.ring| ==> h.ring[i] in h.size && h.ring[i] !in h.live)
    && h.size[BASE] == 0 && BASE !in h.live
    && (forall b :: b in h.live ==> b in h.size)
    && (forall b :: Block(h, b) ==> BASE < b && h.size[b] > 0)
  }

  /** Unit a lies in block b. */
  ghost predicate In(h: Heap, b: int, a: int) {
    Block(h, b) && b <= a < End(h, b)
  }

  ghost predicate Tiles(h: Heap) {
    && (forall a :: a in h.who ==> In(h, h.who[a], a))
    && (forall b, a :: In(h, b, a) ==> a in h.who && h.who[a] == b)
  }

  ghost predicate Inv(h: Heap) {
    Shape(h) && Tiles(h)
  }

  /** Free blocks i and i + 1 of the ring touch. */
  ghost predicate Touch(h: Heap, i: int) {
    0 < i && i + 1 < |h.ring| && h.ring[i] in h.size && End(h, h.ring[i]) == h.ring[i+1]
  }

  ghost predicate NoTouch(h: Heap) {
    forall i :: !Touch(h, i)
  }

  /** Blocks do not overlap. */
  lemma Disjoint(h: Heap, b: int, c: int)
    requires Inv(h) && Block(h, b) && Block(h, c) && b < c
    ensures End(h, b) <= c
  {
    assert In(h, c, c) && (c < End(h, b) ==> In(h, b, c));
  }

  /**
    What the invariant means: two blocks, free or live, never overlap; the free
    blocks lie in ring order with a gap between neighbours; and a unit of memory
    was gained from sbrk exactly if it lies in some block, which is then the only one.
   */
  lemma HeapMeans(h: Heap)
    requires Inv(h) && NoTouch(h)
    ensures forall b, c :: Block(h, b) && Block(h, c) && b < c ==> End(h, b) <= c
    ensures forall i :: 0 < i < |h.ring| - 1 ==> h.ring[i] in h.size && End(h, h.ring[i]) < h.ring[i+1]
    ensures forall a :: a in h.who <==> exists b :: In(h, b, a)
    ensures forall a, b, c :: In(h, b, a) && In(h, c, a) ==> b == c
  {
    forall b, c | Block(h, b) && Block(h, c) && b < c ensures End(h, b) <= c { Disjoint(h, b, c); }
    forall i | 0 < i < |h.ring| - 1 ensures h.ring[i] in h.size && End(h, h.ring[i]) < h.ring[i+1] {
      assert Sorted(h.ring) && Block(h, h.ring[i]) && Block(h, h.ring[i+1]) && !Touch(h, i);
      Disjoint(h, h.ring[i], h.ring[i+1]);
    }
    forall a ensures a in h.who <==> exists b :: In(h, b, a) {
      if a in h.who { assert In(h, h.who[a], a); }
    }
  }

  function InsertAt(s: seq<int>, i: nat, x: int): seq<int>
    requires i <= |s|
  {
    s[..i] + [x] + s[i..]
  }

  function RemoveAt(s: seq<int>, i: nat): seq<int>
    requires i < |s|
  {
    s[..i] + s[i+1..]
  }

  // ---- free: a live block joins the ring, touching blocks merge ----

  ghost function Insert(h: Heap, i: nat, b: int): Heap
    requires i <= |h.ring|
  {
    Heap(InsertAt(h.ring, i, b), h.size, h.live - {b}, h.who)
  }

  /** Position i of the ring is where b belongs. */
  ghost predicate Between(h: Heap, i: nat, b: int) {
    0 < i <= |h.ring| && h.ring[i-1] < b && (i < |h.ring| ==> b < h.ring[i])
  }

  lemma InsertInv(h: Heap, i: nat, b: int)
    requires Inv(h) && b in h.live && Between(h, i, b)
    ensures Inv(Insert(h, i, b))
  {
    hide InsertAt, Sorted;
    var t := Insert(h, i, b);
    assert Block(h, b);
    InsertMembers(h.ring, i, b);
    InsertSorted(h.ring, i, b);
    forall c ensures Block(t, c) <==> Block(h, c) {}
    forall c, a ensures In(t, c, a) <==> In(h, c, a) {}
    assert t.ring[0] == BASE by { InsertIndex(h.ring, i, b, 0); }
    forall k | 0 <= k < |t.ring| ensures t.ring[k] in t.size && t.ring[k] !in t.live { assert t.ring[k] in t.ring; }
  }

  lemma InsertIndex(s: seq<int>, i: nat, x: int, k: nat)
    requires i <= |s| && k <= |s|
    ensures |InsertAt(s, i, x)| == |s| + 1
    ensures InsertAt(s, i, x)[k] == if k < i then s[k] else if k == i then x else s[k-1]
  {
  }

  /** In a ring without touching blocks the new one can touch its two neighbours only. */
  lemma InsertTouch(h: Heap, i: nat, b: int, j: int)
    requires 0 < i <= |h.ring| && b in h.size && Touch(Insert(h, i, b), j)
    ensures j == i - 1 || j == i || Touch(h, if j < i then j else j - 1)
  {
    hide InsertAt;
    InsertIndex(h.ring, i, b, 0);
    InsertIndex(h.ring, i, b, j);
    InsertIndex(h.ring, i, b, j + 1);
  }

  lemma InsertMembers(s: seq<int>, i: nat, x: int)
    requires i <= |s|
    ensures forall y :: y in InsertAt(s, i, x) <==> y in s || y == x
  {
    assert s == s[..i] + s[i..];
  }

  lemma InsertSorted(s: seq<int>, i: nat, x: int)
    requires Sorted(s) && 0 < i <= |s| && s[i-1] < x && (i < |s| ==> x < s[i])
    ensures Sorted(InsertAt(s, i, x))
  {
    var t := InsertAt(s, i, x);
    forall j, k | 0 <= j < k < |t| ensures t[j] < t[k] {
      assert t[j] == (if j < i then s[j] else if j == i then x else s[j-1]);
      assert t[k] == (if k < i then s[k] else if k == i then x else s[k-1]);
    }
  }

  /** Free blocks i and i + 1 become one. */
  ghost function Merge(h: Heap, i: nat): Heap
    requires i + 1 < |h.ring| && h.ring[i] in h.size && h.ring[i+1] in h.size
  {
    var b, c := h.ring[i], h.ring[i+1];
    Heap(RemoveAt(h.ring, i + 1), h.size[b := h.size[b] + h.size[c]], h.live,
         map a | a in h.who :: if h.who[a] == c then b else h.who[a])
  }

  lemma RemoveMembers(s: seq<int>, i: nat)
    requires Sorted(s) && i < |s|
    ensures Sorted(RemoveAt(s, i)) && forall y :: y in RemoveAt(s, i) <==> y in s && y != s[i]
  {
    var t := RemoveAt(s, i);
    assert forall j :: 0 <= j < |t| ==> t[j] == if j < i then s[j] else s[j+1];
    forall y ensures y in t <==> y in s && y != s[i] {
      if y in s && y != s[i] {
        var j :| 0 <= j < |s| && s[j] == y;
        assert t[if j < i then j else j - 1] == y;
      }
    }
  }

  lemma MergeInv(h: Heap, i: nat)
    requires Inv(h) && Touch(h, i)
    ensures Inv(Merge(h, i))
  {
    var t, b, c := Merge(h, i), h.ring[i], h.ring[i+1];
    RemoveMembers(h.ring, i + 1);
    assert Block(h, b) && Block(h, c);
    forall d ensures Block(t, d) <==> Block(h, d) && d != c {}
    MergeTiles(h, t, b, c);
  }

  lemma MergeTiles(h: Heap, t: Heap, b: int, c: int)
    requires Inv(h) && Block(h, b) && Block(h, c) && b < c && End(h, b) == c
    requires t.size == h.size[b := h.size[b] + h.size[c]]
    requires t.who == map a | a in h.who :: if h.who[a] == c then b else h.who[a]
    requires forall d :: Block(t, d) <==> Block(h, d) && d != c
    ensures Tiles(t)
  {
    forall a | a in t.who ensures In(t, t.who[a], a) { assert In(h, h.who[a], a); }
    forall d, a | In(t, d, a) ensures a in t.who && t.who[a] == d {
      if d == b && a >= c { assert In(h, c, a); } else { assert In(h, d, a); }
    }
  }

  /** After the merge of i and i + 1 the others touch as before. */
  lemma MergeTouch(h: Heap, i: nat, j: int)
    requires Inv(h) && Touch(h, i) && Touch(Merge(h, i), j)
    ensures Touch(h, if j < i then j else j + 1)
  {
    var t, b, c := Merge(h, i), h.ring[i], h.ring[i+1];
    assert forall k :: 0 <= k < |t.ring| ==> t.ring[k] == if k <= i then h.ring[k] else h.ring[k+1];
    assert Sorted(h.ring);
  }

  // ---- malloc: a free block leaves the ring, or its tail is cut off ----

  ghost function Take(h: Heap, i: nat): Heap
    requires i < |h.ring|
  {
    Heap(RemoveAt(h.ring, i), h.size, h.live + {h.ring[i]}, h.who)
  }

  lemma TakeInv(h: Heap, i: nat)
    requires Inv(h) && NoTouch(h) && 0 < i < |h.ring|
    ensures Inv(Take(h, i)) && NoTouch(Take(h, i))
  {
    hide RemoveAt, Sorted;
    var t := Take(h, i);
    RemoveMembers(h.ring, i);
    RemoveIndex(h.ring, i, 0);
    assert t.ring[0] in t.ring;
    assert Block(h, h.ring[i]);
    forall c ensures Block(t, c) <==> Block(h, c) {}
    forall c, a ensures In(t, c, a) <==> In(h, c, a) {}
    forall k | 0 <= k < |t.ring| ensures t.ring[k] in t.size && t.ring[k] !in t.live { assert t.ring[k] in t.ring; }
    forall j | Touch(t, j) ensures Touch(h, if j < i then j else j + 1) { TakeTouch(h, i, j); }
  }

  lemma RemoveIndex(s: seq<int>, i: nat, k: nat)
    requires i < |s| && k < |s| - 1
    ensures |RemoveAt(s, i)| == |s| - 1
    ensures RemoveAt(s, i)[k] == if k < i then s[k] else s[k+1]
  {
  }

  lemma TakeTouch(h: Heap, i: nat, j: int)
    requires Inv(h) && 0 < i < |h.ring|
    ensures Touch(Take(h, i), j) ==> Touch(h, if j < i then j else j + 1)
  {
    hide RemoveAt;
    if 0 < j && j + 1 < |h.ring| - 1 {
      RemoveIndex(h.ring, i, j);
      RemoveIndex(h.ring, i, j + 1);
      if j == i - 1 { Disjoint(h, h.ring[i-1], h.ring[i]); }
    } else if |h.ring| > 1 {
      RemoveIndex(h.ring, i, 0);
    }
  }

  /** The last n units of free block i become a live block. */
  ghost function Cut(h: Heap, i: nat, n: int): Heap
    requires i < |h.ring| && h.ring[i] in h.size
  {
    var b, c := h.ring[i], End(h, h.ring[i]) - n;
    Heap(h.ring, h.size[b := h.size[b] - n][c := n], h.live + {c},
         map a | a in h.who :: if h.who[a] == b && a >= c then c else h.who[a])
  }

  lemma CutInv(h: Heap, i: nat, n: int)
    requires Inv(h) && NoTouch(h) && 0 < i < |h.ring| && 0 < n < h.size[h.ring[i]]
    ensures var c := End(h, h.ring[i]) - n;
      Inv(Cut(h, i, n)) && NoTouch(Cut(h, i, n)) && !Block(h, c) && c > h.ring[i]
  {
    var t, b, c := Cut(h, i, n), h.ring[i], End(h, h.ring[i]) - n;
    assert Block(h, b) && In(h, b, c);
    assert Block(h, c) ==> In(h, c, c);
    assert c !in h.ring;
    forall d ensures Block(t, d) <==> Block(h, d) || d == c {}
    CutTiles(h, t, b, c, n);
    if i + 1 < |h.ring| { Disjoint(h, b, h.ring[i+1]); }
    forall j | Touch(t, j) ensures Touch(h, j) { assert Sorted(h.ring); }
  }

  lemma CutTiles(h: Heap, t: Heap, b: int, c: int, n: int)
    requires Inv(h) && Block(h, b) && b < c && c + n == End(h, b) && n > 0 && !Block(h, c)
    requires t.size == h.size[b := h.size[b] - n][c := n]
    requires t.who == map a | a in h.who :: if h.who[a] == b && a >= c then c else h.who[a]
    requires forall d :: Block(t, d) <==> Block(h, d) || d == c
    ensures Tiles(t)
  {
    forall a | a in t.who ensures In(t, t.who[a], a) { assert In(h, h.who[a], a); }
    forall d, a | In(t, d, a) ensures a in t.who && t.who[a] == d {
      if d == c { assert In(h, b, a); } else { assert In(h, d, a); }
    }
  }

  // ---- morecore: new memory, first as a live block ----

  ghost function Units(b: int, n: nat): (r: set<int>)
    ensures forall a :: a in r <==> b <= a < b + n
  {
    if n == 0 then {} else Units(b, n - 1) + {b + n - 1}
  }

  ghost function Gain(h: Heap, b: int, n: nat): Heap {
    Heap(h.ring, h.size[b := n], h.live + {b},
         map a | a in h.who.Keys + Units(b, n) :: if b <= a < b + n then b else h.who[a])
  }

  /** All memory gained so far is below b. */
  ghost predicate Above(h: Heap, b: int) {
    BASE < b && forall a :: a in h.who ==> a < b
  }

  lemma GainInv(h: Heap, b: int, n: nat)
    requires Inv(h) && Above(h, b) && n > 0
    ensures Inv(Gain(h, b, n)) && (NoTouch(h) ==> NoTouch(Gain(h, b, n)))
    ensures forall a :: a in Gain(h, b, n).who <==> a in h.who || b <= a < b + n
  {
    var t := Gain(h, b, n);
    assert Block(h, b) ==> In(h, b, b);
    assert b !in h.ring;
    forall d ensures Block(t, d) <==> Block(h, d) || d == b {}
    forall a | a in t.who ensures In(t, t.who[a], a) { if a < b { assert In(h, h.who[a], a); } }
    forall d, a | In(t, d, a) ensures a in t.who && t.who[a] == d {
      if d != b { assert In(h, d, a); }
    }
    forall j | Touch(t, j) ensures Touch(h, j) {}
  }
}
