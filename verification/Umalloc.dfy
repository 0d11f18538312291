/** The Kernighan and Ritchie allocator of user/umalloc.c. */
module Umalloc {
  // Addresses count header units, so a block of `size` units at `addr` occupies
  // addr .. addr + size - 1 and its first unit is the header.  The free list is a circle
  // through the headers, kept in address order, that starts at `base`.

  datatype Header = Header(ptr: int, size: int)

  datatype Blk = Blk(addr: int, size: int) {
    function End(): int {
      addr + size
    }
  }

  // ----- the free list as a sequence -----

  ghost predicate Before(fr: seq<Blk>, i: int, j: int)
    requires 0 <= i < |fr| && 0 <= j < |fr|
  {
    fr[i].End() < fr[j].addr
  }

  /** In address order, with a gap between any two blocks: no two are adjacent.  The
      first is the empty block `base`. */
  ghost predicate Ordered(fr: seq<Blk>) {
    && fr != [] && fr[0].size == 0
    && (forall k {:trigger fr[k]} :: 1 <= k < |fr| ==> fr[k].size >= 1)
    && (forall i, j {:trigger Before(fr, i, j)} :: 0 <= i < j < |fr| ==> Before(fr, i, j))
  }

  predicate Covers(b: Blk, u: int) {
    b.addr <= u < b.End()
  }

  ghost predicate InFree(fr: seq<Blk>, u: int) {
    exists k :: 1 <= k < |fr| && Covers(fr[k], u)
  }

  function Nx(k: int, n: int): int {
    if k + 1 < n then k + 1 else 0
  }

  /** Steps from position k to position g going round. */
  ghost function Dist(k: int, g: int, n: int): int {
    if k <= g then g - k else g - k + n
  }

  ghost predicate NodeOk(mem: map<int, Header>, fr: seq<Blk>, k: int)
    requires 0 <= k < |fr|
  {
    fr[k].addr in mem && mem[fr[k].addr] == Header(fr[Nx(k, |fr|)].addr, fr[k].size)
  }

  /** The headers in memory form exactly this circle. */
  ghost predicate Linked(mem: map<int, Header>, fr: seq<Blk>) {
    forall k {:trigger NodeOk(mem, fr, k)} :: 0 <= k < |fr| ==> NodeOk(mem, fr, k)
  }

  /** Position k is where a block at `bp` belongs: after k and before k + 1. */
  ghost predicate Slot(fr: seq<Blk>, k: int, b: Blk) {
    && 0 <= k < |fr| && b.size >= 1
    && fr[k].addr < b.addr && fr[k].End() <= b.addr
    && (k + 1 < |fr| ==> b.End() <= fr[k + 1].addr)
  }

  // ----- coalescing -----

  /** Block b ends where the one after position k begins. */
  predicate Touches(fr: seq<Blk>, k: int, b: Blk)
    requires 0 <= k < |fr|
  {
    k + 1 < |fr| && b.End() == fr[k + 1].addr
  }

  /** Insert b after position k, joined with its upper neighbour if they touch. */
  ghost function MergeUp(fr: seq<Blk>, k: int, b: Blk): seq<Blk>
    requires 0 <= k < |fr|
  {
    if Touches(fr, k, b)
    then fr[..k + 1] + [Blk(b.addr, b.size + fr[k + 1].size)] + fr[k + 2..]
    else fr[..k + 1] + [b] + fr[k + 1..]
  }

  /** Join position k with position k + 1 if they touch. */
  ghost function MergeDown(fr: seq<Blk>, k: int): seq<Blk>
    requires 0 <= k < |fr| - 1
  {
    if fr[k].End() == fr[k + 1].addr
    then fr[..k] + [Blk(fr[k].addr, fr[k].size + fr[k + 1].size)] + fr[k + 2..]
    else fr
  }

  ghost function FreeInsert(fr: seq<Blk>, k: int, b: Blk): seq<Blk>
    requires 0 <= k < |fr|
  {
    MergeDown(MergeUp(fr, k, b), k)
  }

  /** Ordered, except that positions k and k + 1 may touch. */
  ghost predicate AlmostOrdered(fr: seq<Blk>, k: int) {
    && fr != [] && fr[0].size == 0 && 0 <= k < |fr| - 1
    && (forall i {:trigger fr[i]} :: 1 <= i < |fr| ==> fr[i].size >= 1)
    && fr[k].End() <= fr[k + 1].addr && fr[k].addr < fr[k + 1].addr
    && (forall i, j {:trigger Before(fr, i, j)} :: 0 <= i < j < |fr| && !(i == k && j == k + 1) ==>
         Before(fr, i, j))
  }

  /** The block at position i after insertion. */
  function MergedAt(fr: seq<Blk>, k: int, b: Blk, i: int): Blk
    requires 0 <= k < |fr| && 0 <= i < if Touches(fr, k, b) then |fr| else |fr| + 1
  {
    if i <= k then fr[i]
    else if i > k + 1 then fr[if Touches(fr, k, b) then i else i - 1]
    else if Touches(fr, k, b) then Blk(b.addr, b.size + fr[k + 1].size) else b
  }

  lemma MergeUpAt(fr: seq<Blk>, k: int, b: Blk, i: int)
    requires 0 <= k < |fr| && 0 <= i < |MergeUp(fr, k, b)|
    ensures |MergeUp(fr, k, b)| == if Touches(fr, k, b) then |fr| else |fr| + 1
    ensures MergeUp(fr, k, b)[i] == MergedAt(fr, k, b, i)
  {
  }

  lemma MergedBefore(fr: seq<Blk>, k: int, b: Blk, i: int, j: int)
    requires Ordered(fr) && Slot(fr, k, b) && !(i == k && j == k + 1)
    requires 0 <= i < j < if Touches(fr, k, b) then |fr| else |fr| + 1
    ensures MergedAt(fr, k, b, i).End() < MergedAt(fr, k, b, j).addr
  {
    var d := if Touches(fr, k, b) then 0 else 1;
    if i != k + 1 && j != k + 1 {
      assert Before(fr, if i <= k then i else i - d, if j <= k then j else j - d);
    } else if j == k + 1 {
      assert Before(fr, i, k);
    } else {
      assert d == 0 ==> Before(fr, k + 1, j);
      assert d == 1 && j > k + 2 ==> Before(fr, k + 1, j - 1);
    }
  }

  lemma MergeUpBefore(fr: seq<Blk>, k: int, b: Blk, i: int, j: int)
    requires Ordered(fr) && Slot(fr, k, b) && 0 <= i < j < |MergeUp(fr, k, b)| && !(i == k && j == k + 1)
    ensures Before(MergeUp(fr, k, b), i, j)
  {
    MergeUpAt(fr, k, b, i);
    MergeUpAt(fr, k, b, j);
    MergedBefore(fr, k, b, i, j);
  }

  lemma MergeUpOrdered(fr: seq<Blk>, k: int, b: Blk)
    requires Ordered(fr) && Slot(fr, k, b)
    ensures AlmostOrdered(MergeUp(fr, k, b), k)
  {
    var gr := MergeUp(fr, k, b);
    var up := Touches(fr, k, b);
    var d := if up then 0 else 1;
    assert forall i :: 0 <= i <= k ==> gr[i] == fr[i];
    assert forall i :: k + 2 <= i < |gr| ==> gr[i] == fr[i - d];
    forall i | 1 <= i < |gr| ensures gr[i].size >= 1 {
      assert i >= k + 2 ==> gr[i] == fr[i - d];
    }
    forall i, j | 0 <= i < j < |gr| && !(i == k && j == k + 1) ensures Before(gr, i, j) {
      MergeUpBefore(fr, k, b, i, j);
    }
  }

  lemma MergeDownOrdered(fr: seq<Blk>, k: int)
    requires AlmostOrdered(fr, k)
    ensures Ordered(MergeDown(fr, k)) && MergeDown(fr, k)[0].addr == fr[0].addr
  {
    var gr := MergeDown(fr, k);
    if fr[k].End() == fr[k + 1].addr {
      assert k > 0;
      assert forall i :: 0 <= i < k ==> gr[i] == fr[i];
      assert forall i :: k < i < |gr| ==> gr[i] == fr[i + 1];
      forall i, j | 0 <= i < j < |gr| ensures Before(gr, i, j) {
        assert Before(fr, if i < k then i else i + 1, if j <= k then j else j + 1);
      }
    } else {
      forall i, j | 0 <= i < j < |gr| ensures Before(gr, i, j) {
      }
    }
  }

  lemma MergeUpUnits(fr: seq<Blk>, k: int, b: Blk, u: int)
    requires Ordered(fr) && Slot(fr, k, b)
    ensures InFree(MergeUp(fr, k, b), u) <==> InFree(fr, u) || Covers(b, u)
  {
    var gr := MergeUp(fr, k, b);
    var up := Touches(fr, k, b);
    var d := if up then 0 else 1;
    if InFree(gr, u) {
      var i :| 1 <= i < |gr| && Covers(gr[i], u);
      if i <= k {
        assert Covers(fr[i], u);
      } else if i >= k + 2 {
        assert Covers(fr[i - d], u);
      } else {
        assert Covers(b, u) || (up && Covers(fr[k + 1], u));
      }
    }
    if Covers(b, u) {
      assert Covers(gr[k + 1], u);
    }
    if InFree(fr, u) {
      var i :| 1 <= i < |fr| && Covers(fr[i], u);
      assert Covers(gr[if i <= k then i else i + d], u);
    }
  }

  lemma MergeDownUnits(fr: seq<Blk>, k: int, u: int)
    requires AlmostOrdered(fr, k)
    ensures InFree(MergeDown(fr, k), u) <==> InFree(fr, u)
  {
    var gr := MergeDown(fr, k);
    if fr[k].End() == fr[k + 1].addr {
      assert k > 0;
      if InFree(gr, u) {
        var i :| 1 <= i < |gr| && Covers(gr[i], u);
        assert i == k ==> Covers(fr[k], u) || Covers(fr[k + 1], u);
        assert i != k ==> Covers(fr[if i < k then i else i + 1], u);
      }
      if InFree(fr, u) {
        var i :| 1 <= i < |fr| && Covers(fr[i], u);
        assert Covers(gr[if i <= k then i else i - 1], u);
      }
    }
  }

  /** Freeing keeps the list ordered and gap-separated, and adds exactly the units
      of the freed block. */
  lemma FreeInsertOk(fr: seq<Blk>, k: int, b: Blk)
    requires Ordered(fr) && Slot(fr, k, b)
    ensures Ordered(FreeInsert(fr, k, b)) && FreeInsert(fr, k, b)[0].addr == fr[0].addr
    ensures forall u :: InFree(FreeInsert(fr, k, b), u) <==> InFree(fr, u) || Covers(b, u)
  {
    MergeUpOrdered(fr, k, b);
    MergeDownOrdered(MergeUp(fr, k, b), k);
    forall u ensures InFree(FreeInsert(fr, k, b), u) <==> InFree(fr, u) || Covers(b, u) {
      MergeUpUnits(fr, k, b, u);
      MergeDownUnits(MergeUp(fr, k, b), k, u);
    }
  }

  /** Memory after the first half of free(): the header at bp points past it. */
  function MemUp(mem: map<int, Header>, p: int, bp: int): map<int, Header>
    requires p in mem && bp in mem && mem[p].ptr in mem
  {
    var next := mem[p].ptr;
    if bp + mem[bp].size == next
    then mem[bp := Header(mem[next].ptr, mem[bp].size + mem[next].size)]
    else mem[bp := Header(next, mem[bp].size)]
  }

  /** Memory after the second half: p points at bp, or has swallowed it. */
  function MemDown(mem: map<int, Header>, p: int, bp: int): map<int, Header>
    requires p in mem && bp in mem
  {
    if p + mem[p].size == bp
    then mem[p := Header(mem[bp].ptr, mem[p].size + mem[bp].size)]
    else mem[p := Header(bp, mem[p].size)]
  }

  /** Between the halves only position k's pointer is stale. */
  ghost predicate LinkedBut(mem: map<int, Header>, fr: seq<Blk>, k: int) {
    && 0 <= k < |fr| - 1
    && (forall i {:trigger NodeOk(mem, fr, i)} :: 0 <= i < |fr| && i != k ==> NodeOk(mem, fr, i))
    && fr[k].addr in mem && mem[fr[k].addr].size == fr[k].size
  }

  lemma DistinctAddrs(fr: seq<Blk>, i: int, j: int)
    requires Ordered(fr) && 0 <= i < |fr| && 0 <= j < |fr| && fr[i].addr == fr[j].addr
    ensures i == j
  {
    assert i < j ==> Before(fr, i, j);
    assert j < i ==> Before(fr, j, i);
    assert fr[i].size >= 0 && fr[j].size >= 0;
  }

  lemma MemUpLinked(mem: map<int, Header>, fr: seq<Blk>, k: int, b: Blk)
    requires Linked(mem, fr) && Ordered(fr) && Slot(fr, k, b)
    requires b.addr in mem && mem[b.addr].size == b.size
    ensures fr[k].addr in mem && mem[fr[k].addr].ptr in mem
    ensures LinkedBut(MemUp(mem, fr[k].addr, b.addr), MergeUp(fr, k, b), k)
  {
    assert NodeOk(mem, fr, k) && NodeOk(mem, fr, Nx(k, |fr|));
    var gr, m := MergeUp(fr, k, b), MemUp(mem, fr[k].addr, b.addr);
    var up := Touches(fr, k, b);
    assert k > 0 ==> Before(fr, 0, k);
    assert up <==> b.addr + mem[b.addr].size == mem[fr[k].addr].ptr;
    var d := if up then 0 else 1;
    assert forall i :: 0 <= i <= k ==> gr[i] == fr[i];
    assert forall i :: k + 2 <= i < |gr| ==> gr[i] == fr[i - d];
    forall i | 0 <= i < |gr| && i != k ensures NodeOk(m, gr, i) {
      if i != k + 1 {
        var o := if i <= k then i else i - d;
        assert NodeOk(mem, fr, o) && fr[o].addr != b.addr by {
          assert o < k ==> Before(fr, o, k);
          assert o > k + 1 ==> Before(fr, k + 1, o);
        }
      }
    }
  }

  lemma MemDownLinked(mem: map<int, Header>, fr: seq<Blk>, k: int)
    requires LinkedBut(mem, fr, k) && AlmostOrdered(fr, k)
    ensures fr[k].addr in mem && fr[k + 1].addr in mem
    ensures Linked(MemDown(mem, fr[k].addr, fr[k + 1].addr), MergeDown(fr, k))
  {
    assert NodeOk(mem, fr, k + 1);
    var gr, m := MergeDown(fr, k), MemDown(mem, fr[k].addr, fr[k + 1].addr);
    if fr[k].End() == fr[k + 1].addr {
      assert forall i :: 0 <= i < k ==> gr[i] == fr[i];
      assert forall i :: k < i < |gr| ==> gr[i] == fr[i + 1];
      forall i | 0 <= i < |gr| ensures NodeOk(m, gr, i) {
        if i != k {
          var o := if i < k then i else i + 1;
          assert NodeOk(mem, fr, o) && fr[o].addr != fr[k].addr by {
            assert o < k ==> Before(fr, o, k);
            assert o > k + 1 ==> Before(fr, k, o);
          }
        }
      }
    } else {
      forall i | 0 <= i < |gr| ensures NodeOk(m, gr, i) {
        if i != k {
          assert NodeOk(mem, fr, i) && fr[i].addr != fr[k].addr by {
            assert i < k ==> Before(fr, i, k);
            assert i > k + 1 ==> Before(fr, k, i);
          }
        }
      }
    }
  }

  // ----- free and live blocks -----

  ghost predicate Clear(x: Blk, y: Blk) {
    x.End() <= y.addr || y.End() <= x.addr
  }

  ghost predicate LiveApart(live: map<int, int>) {
    forall a, b {:trigger Clear(Blk(a, live[a]), Blk(b, live[b]))} :: a in live && b in live && a != b ==>
      Clear(Blk(a, live[a]), Blk(b, live[b]))
  }

  ghost predicate FreeApart(fr: seq<Blk>, live: map<int, int>) {
    forall k, a {:trigger Clear(fr[k], Blk(a, live[a]))} :: 1 <= k < |fr| && a in live ==>
      Clear(fr[k], Blk(a, live[a]))
  }

  ghost predicate LiveOk(mem: map<int, Header>, live: map<int, int>, base: int) {
    forall a {:trigger live[a]} {:trigger mem[a]} :: a in live ==>
      live[a] >= 1 && a > base && a in mem && mem[a].size == live[a]
  }

  ghost predicate InLive(live: map<int, int>, u: int) {
    exists a :: a in live && Covers(Blk(a, live[a]), u)
  }

  /** Every unit obtained from sbrk() is in a free block or in a live one, and no
      other unit is.  With FreeApart, LiveApart and Ordered: in exactly one. */
  ghost predicate Partition(fr: seq<Blk>, live: map<int, int>, arena: set<int>) {
    forall u {:trigger InFree(fr, u)} {:trigger InLive(live, u)} {:trigger u in arena} ::
      u in arena <==> InFree(fr, u) || InLive(live, u)
  }

  ghost predicate Below(arena: set<int>, base: int, brk: int) {
    forall u :: u in arena ==> base < u < brk
  }

  ghost predicate SameUnits(a: int, n: int, mem: map<int, Header>, mem': map<int, Header>) {
    forall u :: a <= u < a + n ==> (u in mem <==> u in mem') && (u in mem ==> mem[u] == mem'[u])
  }

  /** Memory under the live blocks is as before. */
  ghost predicate Untouched(live: map<int, int>, mem: map<int, Header>, mem': map<int, Header>) {
    forall a {:trigger SameUnits(a, live[a], mem, mem')} :: a in live ==> SameUnits(a, live[a], mem, mem')
  }

  lemma {:induction false} FindSlotFrom(fr: seq<Blk>, b: Blk, k: int) returns (s: int)
    requires Ordered(fr) && b.size >= 1 && 0 <= k < |fr| && fr[k].addr < b.addr
    requires forall i {:trigger fr[i]} :: 1 <= i < |fr| ==> Clear(fr[i], b)
    ensures Slot(fr, s, b)
    decreases |fr| - k
  {
    assert fr[k].End() <= b.addr;
    if k + 1 < |fr| && fr[k + 1].addr < b.addr {
      s := FindSlotFrom(fr, b, k + 1);
    } else {
      s := k;
      assert k + 1 < |fr| ==> Clear(fr[k + 1], b) && fr[k + 1].size >= 1;
    }
  }

  /** The loop test of free() holds at the block's slot and nowhere else. */
  lemma SlotTest(fr: seq<Blk>, k: int, s: int, b: Blk)
    requires Ordered(fr) && Slot(fr, s, b) && 0 <= k < |fr|
    ensures var p, q := fr[k].addr, fr[Nx(k, |fr|)].addr;
            ((b.addr > p && b.addr < q) || (p >= q && (b.addr > p || b.addr < q))) <==> k == s
  {
    var n := |fr|;
    assert forall i {:trigger fr[i]} :: 0 <= i < n ==> fr[i].size >= 0;
    assert k + 1 < n ==> Before(fr, k, k + 1);
    assert s + 1 < n ==> Before(fr, s, s + 1);
    assert k > 0 ==> Before(fr, 0, k);
    assert s > 0 ==> Before(fr, 0, s);
    if k < s {
      assert Before(fr, k, s);
      assert k + 1 < s ==> Before(fr, k + 1, s);
    } else if s < k {
      assert Before(fr, s, k);
      assert s + 1 < k ==> Before(fr, s + 1, k);
    }
  }

  ghost function Common(x: Blk, y: Blk): int {
    if x.addr < y.addr then y.addr else x.addr
  }

  lemma Overlap(x: Blk, y: Blk)
    requires x.size >= 1 && y.size >= 1
    ensures Clear(x, y) || (Covers(x, Common(x, y)) && Covers(y, Common(x, y)))
  {
  }

  /** Moving a live block to the free list. */
  lemma FreePartition(fr: seq<Blk>, live: map<int, int>, arena: set<int>, k: int, a: int)
    requires Ordered(fr) && a in live && Slot(fr, k, Blk(a, live[a]))
    requires FreeApart(fr, live) && LiveApart(live) && Partition(fr, live, arena)
    requires forall c {:trigger live[c]} :: c in live ==> live[c] >= 1
    ensures var gr, rest := FreeInsert(fr, k, Blk(a, live[a])), live - {a};
            Ordered(gr) && gr[0].addr == fr[0].addr
            && Partition(gr, rest, arena) && FreeApart(gr, rest) && LiveApart(rest)
  {
    var b := Blk(a, live[a]);
    var gr, rest := FreeInsert(fr, k, b), live - {a};
    FreeInsertOk(fr, k, b);
    forall u ensures u in arena <==> InFree(gr, u) || InLive(rest, u) {
      if InLive(live, u) {
        var c :| c in live && Covers(Blk(c, live[c]), u);
        assert c != a ==> c in rest && Covers(Blk(c, rest[c]), u);
      }
      if InLive(rest, u) {
        var c :| c in rest && Covers(Blk(c, rest[c]), u);
        assert c in live && Covers(Blk(c, live[c]), u);
      }
      if Covers(b, u) {
        assert InLive(live, u);
      }
      assert u in arena <==> InFree(fr, u) || InLive(live, u);
    }
    forall j, c | 1 <= j < |gr| && c in rest ensures Clear(gr[j], Blk(c, rest[c])) {
      var x, y := gr[j], Blk(c, live[c]);
      assert live[c] >= 1 && Clear(b, y);
      assert forall i {:trigger fr[i]} :: 1 <= i < |fr| ==> Clear(fr[i], y);
      var u := Common(x, y);
      Overlap(x, y);
      assert Covers(x, u) ==> InFree(gr, u);
    }
    forall c, d | c in rest && d in rest && c != d ensures Clear(Blk(c, rest[c]), Blk(d, rest[d])) {
      assert Clear(Blk(c, live[c]), Blk(d, live[d]));
    }
  }

  /** The headers free() writes lie outside every other live block. */
  lemma OnlyFreeWritten(fr: seq<Blk>, live: map<int, int>, base: int, k: int, bp: int, mem: map<int, Header>,
                        mem': map<int, Header>)
    requires Ordered(fr) && fr[0].addr == base && LiveOk(mem, live, base) && LiveApart(live)
    requires FreeApart(fr, live)
    requires 0 <= k < |fr| && bp in live && fr[k].addr in mem
    requires mem'.Keys == mem.Keys
    requires forall u :: u in mem && u != bp && u != fr[k].addr ==> mem'[u] == mem[u]
    ensures Untouched(live - {bp}, mem, mem') && LiveOk(mem', live - {bp}, base)
  {
    var rest := live - {bp};
    forall a | a in rest ensures SameUnits(a, rest[a], mem, mem') {
      assert live[a] >= 1 && live[bp] >= 1;
      assert Clear(Blk(a, live[a]), Blk(bp, live[bp]));
      if k > 0 {
        assert Clear(fr[k], Blk(a, live[a])) && fr[k].size >= 1;
      }
      forall u | a <= u < a + rest[a] ensures (u in mem <==> u in mem') && (u in mem ==> mem[u] == mem'[u]) {
        assert u in mem <==> u in mem'.Keys;
      }
    }
    forall a | a in rest ensures rest[a] >= 1 && a > base && a in mem' && mem'[a].size == rest[a] {
      assert live[a] >= 1 && SameUnits(a, rest[a], mem, mem');
      assert a in mem && a in mem'.Keys;
    }
  }

  lemma FindSlot(fr: seq<Blk>, live: map<int, int>, bp: int, base: int, mem: map<int, Header>)
    returns (s: int)
    requires Ordered(fr) && fr[0].addr == base && LiveOk(mem, live, base) && FreeApart(fr, live)
    requires bp in live
    ensures Slot(fr, s, Blk(bp, live[bp]))
  {
    assert live[bp] >= 1 && bp > base;
    forall i {:trigger fr[i]} | 1 <= i < |fr| ensures Clear(fr[i], Blk(bp, live[bp])) {
    }
    s := FindSlotFrom(fr, Blk(bp, live[bp]), 0);
  }

  // ----- the allocator -----

  /** The free list is one address-ordered circle without adjacent blocks, and it and
      the live blocks exactly partition what sbrk() gave. */
  ghost predicate Circle(mem: map<int, Header>, fr: seq<Blk>, live: map<int, int>, arena: set<int>, base: int,
                         brk: int) {
    && Ordered(fr) && fr[0].addr == base && Linked(mem, fr)
    && LiveOk(mem, live, base) && LiveApart(live) && FreeApart(fr, live)
    && Partition(fr, live, arena) && Below(arena, base, brk)
  }

  /** What free() leaves behind. */
  ghost predicate Freed(mem: map<int, Header>, fr: seq<Blk>, live: map<int, int>, k: int, bp: int,
                        mem': map<int, Header>, fr': seq<Blk>, live': map<int, int>) {
    && bp in live && live' == live - {bp}
    && Slot(fr, k, Blk(bp, live[bp])) && fr' == FreeInsert(fr, k, Blk(bp, live[bp]))
    && Untouched(live', mem, mem')
  }

  lemma HeadersPresent(mem: map<int, Header>, fr: seq<Blk>, k: int)
    requires Linked(mem, fr) && 0 <= k < |fr|
    ensures fr[k].addr in mem && mem[fr[k].addr].ptr in mem
    ensures mem[fr[k].addr] == Header(fr[Nx(k, |fr|)].addr, fr[k].size)
  {
    assert NodeOk(mem, fr, k) && NodeOk(mem, fr, Nx(k, |fr|));
  }

  lemma FreeStep(mem: map<int, Header>, fr: seq<Blk>, live: map<int, int>, arena: set<int>, base: int,
                 brk: int, k: int, bp: int)
    requires Circle(mem, fr, live, arena, base, brk) && bp in live && Slot(fr, k, Blk(bp, live[bp]))
    ensures bp in mem && fr[k].addr in mem && mem[fr[k].addr].ptr in mem
    ensures var p, gr, rest := fr[k].addr, FreeInsert(fr, k, Blk(bp, live[bp])), live - {bp};
            var mem' := MemDown(MemUp(mem, p, bp), p, bp);
            Circle(mem', gr, rest, arena, base, brk) && Freed(mem, fr, live, k, bp, mem', gr, rest)
            && 0 <= k < |gr| && gr[k].addr == p >= base
  {
    assert k > 0 ==> Before(fr, 0, k);
    var b := Blk(bp, live[bp]);
    assert live[bp] >= 1;
    HeadersPresent(mem, fr, k);
    MemUpLinked(mem, fr, k, b);
    MergeUpOrdered(fr, k, b);
    var p := fr[k].addr;
    var mem1, mg := MemUp(mem, p, bp), MergeUp(fr, k, b);
    assert mg[k] == fr[k] && mg[k + 1].addr == bp;
    MemDownLinked(mem1, mg, k);
    FreePartition(fr, live, arena, k, bp);
    var mem2 := MemDown(mem1, p, bp);
    OnlyFreeWritten(fr, live, base, k, bp, mem, mem2);
  }

  // ----- taking units -----

  /** The last `n` units of position g leave the free list. */
  ghost function Carve(fr: seq<Blk>, g: int, n: int): seq<Blk>
    requires 0 <= g < |fr|
  {
    if fr[g].size == n then fr[..g] + fr[g + 1..] else fr[g := Blk(fr[g].addr, fr[g].size - n)]
  }

  /** Where the carved block's header is. */
  function CarvedAt(b: Blk, n: int): int {
    b.addr + b.size - n
  }

  /** Memory after malloc() took `n` units from p, whose predecessor is prevp. */
  function MemCarved(mem: map<int, Header>, prevp: int, p: int, n: int): map<int, Header>
    requires prevp in mem && p in mem
  {
    if mem[p].size == n then mem[prevp := Header(mem[p].ptr, mem[prevp].size)]
    else
      var small := mem[p := Header(mem[p].ptr, mem[p].size - n)];
      var q := p + mem[p].size - n;
      small[q := Header(if q in small then small[q].ptr else 0, n)]
  }

  ghost predicate CanCarve(fr: seq<Blk>, g: int, n: int) {
    Ordered(fr) && 1 <= g < |fr| && 1 <= n <= fr[g].size
  }

  lemma CarveOrdered(fr: seq<Blk>, g: int, n: int)
    requires CanCarve(fr, g, n)
    ensures Ordered(Carve(fr, g, n)) && Carve(fr, g, n)[0].addr == fr[0].addr
  {
    var gr := Carve(fr, g, n);
    var d := if fr[g].size == n then 1 else 0;
    assert forall i :: 0 <= i < g ==> gr[i] == fr[i];
    assert forall i :: g + 1 - d <= i < |gr| ==> gr[i] == fr[i + d];
    forall i, j | 0 <= i < j < |gr| ensures Before(gr, i, j) {
      assert Before(fr, if i < g then i else i + d, if j < g then j else j + d);
    }
  }

  lemma CarveUnits(fr: seq<Blk>, g: int, n: int, u: int)
    requires CanCarve(fr, g, n)
    ensures InFree(Carve(fr, g, n), u) <==> InFree(fr, u) && !Covers(Blk(CarvedAt(fr[g], n), n), u)
  {
    var gr, b := Carve(fr, g, n), Blk(CarvedAt(fr[g], n), n);
    var d := if fr[g].size == n then 1 else 0;
    assert forall i :: 0 <= i < g ==> gr[i] == fr[i];
    assert forall i :: g + 1 - d <= i < |gr| ==> gr[i] == fr[i + d];
    if InFree(gr, u) {
      var i :| 1 <= i < |gr| && Covers(gr[i], u);
      var o := if i < g then i else i + d;
      assert Covers(fr[o], u);
      assert o < g ==> Before(fr, o, g);
      assert o > g ==> Before(fr, g, o);
    }
    if InFree(fr, u) && !Covers(b, u) {
      var i :| 1 <= i < |fr| && Covers(fr[i], u);
      assert Covers(gr[if i <= g then i else i - d], u);
    }
  }

  lemma CarvePartition(fr: seq<Blk>, live: map<int, int>, arena: set<int>, g: int, n: int)
    requires CanCarve(fr, g, n) && FreeApart(fr, live) && LiveApart(live) && Partition(fr, live, arena)
    requires forall c {:trigger live[c]} :: c in live ==> live[c] >= 1
    ensures var a, gr := CarvedAt(fr[g], n), Carve(fr, g, n);
            a !in live && Partition(gr, live[a := n], arena) && FreeApart(gr, live[a := n]) && LiveApart(live[a := n])
  {
    var a, gr := CarvedAt(fr[g], n), Carve(fr, g, n);
    var more, b := live[a := n], Blk(a, n);
    forall c | c in live ensures c != a {
      assert live[c] >= 1 && Clear(fr[g], Blk(c, live[c]));
    }
    forall u ensures u in arena <==> InFree(gr, u) || InLive(more, u) {
      CarveUnits(fr, g, n, u);
      if InLive(live, u) {
        var c :| c in live && Covers(Blk(c, live[c]), u);
        assert c in more && Covers(Blk(c, more[c]), u);
      }
      if InLive(more, u) {
        var c :| c in more && Covers(Blk(c, more[c]), u);
        assert c != a ==> c in live && Covers(Blk(c, live[c]), u);
        assert c == a ==> Covers(fr[g], u);
      }
      if Covers(b, u) {
        assert a in more && Covers(Blk(a, more[a]), u);
        assert Covers(fr[g], u);
      }
      assert u in arena <==> InFree(fr, u) || InLive(live, u);
    }
    var d := if fr[g].size == n then 1 else 0;
    forall j, c | 1 <= j < |gr| && c in more ensures Clear(gr[j], Blk(c, more[c])) {
      var o := if j < g then j else j + d;
      assert gr[j].addr == fr[o].addr && gr[j].size <= fr[o].size;
      if c != a {
        assert Clear(fr[o], Blk(c, live[c])) && live[c] >= 1;
      } else {
        assert o < g ==> Before(fr, o, g);
        assert o > g ==> Before(fr, g, o);
      }
    }
    forall c, e | c in more && e in more && c != e ensures Clear(Blk(c, more[c]), Blk(e, more[e])) {
      if c != a && e != a {
        assert Clear(Blk(c, live[c]), Blk(e, live[e]));
      } else {
        var f := if c == a then e else c;
        assert Clear(fr[g], Blk(f, live[f])) && live[f] >= 1;
      }
    }
  }

  lemma CarveLinked(mem: map<int, Header>, fr: seq<Blk>, g: int, n: int)
    requires Linked(mem, fr) && CanCarve(fr, g, n)
    ensures fr[g - 1].addr in mem && fr[g].addr in mem
    ensures Linked(MemCarved(mem, fr[g - 1].addr, fr[g].addr, n), Carve(fr, g, n))
  {
    HeadersPresent(mem, fr, g - 1);
    HeadersPresent(mem, fr, g);
    var gr, m := Carve(fr, g, n), MemCarved(mem, fr[g - 1].addr, fr[g].addr, n);
    var d := if fr[g].size == n then 1 else 0;
    forall i | 0 <= i < |gr| ensures NodeOk(m, gr, i) {
      var o := if i < g then i else i + d;
      assert gr[i].addr == fr[o].addr;
      assert NodeOk(mem, fr, o);
      assert o < g ==> Before(fr, o, g);
      assert o > g ==> Before(fr, g, o);
      assert o < g - 1 ==> Before(fr, o, g - 1);
      assert fr[o].size >= 0 && fr[g - 1].size >= 0;
      assert Before(fr, g - 1, g);
    }
  }

  /** The headers malloc() writes lie outside every live block. */
  lemma CarveUntouched(mem: map<int, Header>, fr: seq<Blk>, live: map<int, int>, base: int, g: int, n: int)
    requires Linked(mem, fr) && CanCarve(fr, g, n) && fr[0].addr == base && LiveOk(mem, live, base)
    requires FreeApart(fr, live)
    ensures fr[g - 1].addr in mem && fr[g].addr in mem
    ensures var mem' := MemCarved(mem, fr[g - 1].addr, fr[g].addr, n);
            Untouched(live, mem, mem') && LiveOk(mem', live[CarvedAt(fr[g], n) := n], base)
  {
    HeadersPresent(mem, fr, g - 1);
    HeadersPresent(mem, fr, g);
    var prevp, p, a := fr[g - 1].addr, fr[g].addr, CarvedAt(fr[g], n);
    var mem' := MemCarved(mem, prevp, p, n);
    assert Before(fr, 0, g) && Before(fr, g - 1, g);
    forall c | c in live ensures SameUnits(c, live[c], mem, mem') {
      assert live[c] >= 1 && Clear(fr[g], Blk(c, live[c]));
      assert g > 1 ==> Clear(fr[g - 1], Blk(c, live[c])) && fr[g - 1].size >= 1;
    }
    forall c | c in live && c != a ensures live[c] >= 1 && c > base && c in mem' && mem'[c].size == live[c] {
      assert live[c] >= 1 && SameUnits(c, live[c], mem, mem');
      assert c in mem;
    }
  }

  lemma CarveStep(mem: map<int, Header>, fr: seq<Blk>, live: map<int, int>, arena: set<int>, base: int,
                  brk: int, g: int, n: int)
    requires Circle(mem, fr, live, arena, base, brk) && CanCarve(fr, g, n)
    ensures fr[g - 1].addr in mem && fr[g].addr in mem
    ensures var a, mem' := CarvedAt(fr[g], n), MemCarved(mem, fr[g - 1].addr, fr[g].addr, n);
            a !in live && Circle(mem', Carve(fr, g, n), live[a := n], arena, base, brk) && Untouched(live, mem, mem')
            && Carve(fr, g, n)[g - 1].addr == fr[g - 1].addr >= base
  {
    assert g > 1 ==> Before(fr, 0, g - 1);
    CarveOrdered(fr, g, n);
    CarvePartition(fr, live, arena, g, n);
    CarveLinked(mem, fr, g, n);
    CarveUntouched(mem, fr, live, base, g, n);
  }

  ghost predicate Carved(fr: seq<Blk>, g: int, n: int, fr': seq<Blk>, a: int) {
    0 <= g < |fr| && fr' == Carve(fr, g, n) && a == CarvedAt(fr[g], n)
  }

  // ----- growing -----

  function Span(p: int, n: int): (s: set<int>)
    ensures forall u :: u in s <==> p <= u < p + n
  {
    set u | p <= u < p + n && Covers(Blk(p, n), u)
  }

  /** The blocks gained one span of the wanted units, at least 4096, above all others. */
  ghost predicate Extended(arena: set<int>, top: int, nu: int, arena': set<int>, top': int) {
    var n := if nu < 4096 then 4096 else nu;
    top <= top' - n && arena' == arena + Span(top' - n, n)
  }

  /** All free and live blocks lie below the break. */
  lemma BelowBreak(fr: seq<Blk>, live: map<int, int>, arena: set<int>, base: int, brk: int)
    requires Ordered(fr) && fr[0].addr == base < brk && Partition(fr, live, arena)
    requires Below(arena, base, brk)
    requires forall c {:trigger live[c]} :: c in live ==> live[c] >= 1
    ensures forall k {:trigger fr[k]} :: 0 <= k < |fr| ==> fr[k].End() <= brk && fr[k].addr < brk
    ensures forall c {:trigger live[c]} :: c in live ==> c < c + live[c] <= brk
  {
    forall k | 1 <= k < |fr| ensures fr[k].End() <= brk {
      assert Covers(fr[k], fr[k].End() - 1);
      assert InFree(fr, fr[k].End() - 1);
    }
    forall c | c in live ensures c + live[c] <= brk {
      assert Covers(Blk(c, live[c]), c + live[c] - 1);
      assert InLive(live, c + live[c] - 1);
    }
  }

  /** A fresh span from sbrk() counts as a live block until it is freed. */
  lemma GrowStep(mem: map<int, Header>, fr: seq<Blk>, live: map<int, int>, arena: set<int>, base: int,
                 brk: int, p: int, h: Header)
    requires Circle(mem, fr, live, arena, base, brk) && base < brk <= p && h.size >= 1
    ensures p !in live
    ensures Circle(mem[p := h], fr, live[p := h.size], arena + Span(p, h.size), base, p + h.size)
    ensures Untouched(live, mem, mem[p := h])
  {
    var more, all, mem' := live[p := h.size], arena + Span(p, h.size), mem[p := h];
    BelowBreak(fr, live, arena, base, brk);
    forall u ensures u in all <==> InFree(fr, u) || InLive(more, u) {
      if InLive(live, u) {
        var c :| c in live && Covers(Blk(c, live[c]), u);
        assert c in more && Covers(Blk(c, more[c]), u);
      }
      if InLive(more, u) {
        var c :| c in more && Covers(Blk(c, more[c]), u);
        assert c != p ==> c in live && Covers(Blk(c, live[c]), u);
      }
      if u in Span(p, h.size) {
        assert p in more && Covers(Blk(p, more[p]), u);
      }
      assert u in arena <==> InFree(fr, u) || InLive(live, u);
    }
    forall k | 0 <= k < |fr| ensures NodeOk(mem', fr, k) {
      assert NodeOk(mem, fr, k) && fr[k].addr < brk;
    }
    forall k, a | 1 <= k < |fr| && a in more ensures Clear(fr[k], Blk(a, more[a])) {
      assert fr[k].End() <= brk;
      assert a != p ==> Clear(fr[k], Blk(a, live[a]));
    }
    forall a, b | a in more && b in more && a != b ensures Clear(Blk(a, more[a]), Blk(b, more[b])) {
      assert a != p ==> a + live[a] <= brk;
      assert b != p ==> b + live[b] <= brk;
      assert a != p && b != p ==> Clear(Blk(a, live[a]), Blk(b, live[b]));
    }
    forall a | a in live ensures SameUnits(a, live[a], mem, mem') {
      assert a + live[a] <= brk;
    }
  }

  // ----- requests -----

  /** Units for a request: the payload rounded up, plus the header. */
  function Units(nbytes: int): (n: int)
    requires 0 <= nbytes
    ensures 16 * (n - 2) < nbytes <= 16 * (n - 1)
  {
    (nbytes + 15) / 16 + 1
  }

  /** The units of a request for the most bytes that a C unsigned int can hold. */
  const MAX_UNITS := 0x1000_0001

  /** What morecore() passes to sbrk(), whose parameter is a C int. */
  function SbrkArgument(nu: int): int {
    var w := (nu * 16) % 0x1_0000_0000;
    if w < 0x8000_0000 then w else w - 0x1_0000_0000
  }

  /** sbrk() gives what morecore() goes on to use exactly for requests below 2^27 units,
      though malloc() accepts up to 2^28 + 1; for every other the new break is below the
      end of the span. */
  lemma SbrkArgumentExact(nu: int)
    requires 0 <= nu <= MAX_UNITS
    ensures SbrkArgument(nu) == nu * 16 <==> nu < 0x800_0000
    ensures nu >= 0x800_0000 ==> SbrkArgument(nu) / 16 < nu && SbrkArgument(nu) % 16 == 0
  {
    if nu >= 0x1000_0000 {
      assert (nu * 16) % 0x1_0000_0000 == nu * 16 - 0x1_0000_0000;
    }
  }

  ghost predicate Fits(fr: seq<Blk>, k: int, n: int) {
    0 <= k < |fr| && fr[k].size >= n
  }

  ghost predicate SomeFit(fr: seq<Blk>, n: int) {
    exists k :: Fits(fr, k, n)
  }

  /** When the search from `at` looks at position i: first 0, last |fr| - 1 for `at`. */
  ghost function Turn(at: int, i: int, n: int): int {
    if i > at then i - at - 1 else i - at - 1 + n
  }

  /** Position g is the first that fits, going round from the one after `at`. */
  ghost predicate FirstFit(fr: seq<Blk>, at: int, g: int, n: int) {
    && Fits(fr, g, n)
    && forall i {:trigger Fits(fr, i, n)} :: 0 <= i < |fr| && Turn(at, i, |fr|) < Turn(at, g, |fr|) ==> !Fits(fr, i, n)
  }

  /** Freeing a span above the break leaves a block it all fits in. */
  lemma FreedFits(fr: seq<Blk>, k: int, b: Blk)
    requires Ordered(fr) && Slot(fr, k, b)
    ensures SomeFit(FreeInsert(fr, k, b), b.size)
  {
    var up := MergeUp(fr, k, b);
    assert k + 1 < |fr| ==> fr[k + 1].size >= 1;
    assert fr[k].size >= 0;
    assert up[k + 1].size >= b.size && up[k] == fr[k];
    var gr := FreeInsert(fr, k, b);
    assert Fits(gr, if fr[k].End() == b.addr then k else k + 1, b.size);
  }

  /** What fits n units is the block that ends at the top. */
  ghost predicate OnlyTopFits(fr: seq<Blk>, n: int, top: int) {
    forall k {:trigger Fits(fr, k, n)} :: Fits(fr, k, n) ==> fr[k].End() == top
  }

  /** When nothing fitted before, only the block that the new span is in does. */
  lemma FreedOnTop(fr: seq<Blk>, k: int, b: Blk, n: int)
    requires Ordered(fr) && Slot(fr, k, b) && !SomeFit(fr, n)
    requires forall i {:trigger fr[i]} :: 0 <= i < |fr| ==> fr[i].addr < b.addr
    ensures OnlyTopFits(FreeInsert(fr, k, b), n, b.End())
  {
    assert k == |fr| - 1;
    var gr := FreeInsert(fr, k, b);
    assert forall i {:trigger gr[i]} :: 0 <= i < |gr| - 1 ==> gr[i] == fr[i] && !Fits(fr, i, n);
    forall i | Fits(gr, i, n) ensures gr[i].End() == b.End() {
      assert i == |gr| - 1;
    }
  }

  /** A span freed above all other blocks. */
  lemma SpanFits(fr: seq<Blk>, k: int, b: Blk, nu: int)
    requires Ordered(fr) && Slot(fr, k, b) && nu <= b.size
    requires forall i {:trigger fr[i]} :: 0 <= i < |fr| ==> fr[i].addr < b.addr
    ensures SomeFit(FreeInsert(fr, k, b), nu)
    ensures SomeFit(fr, nu) || OnlyTopFits(FreeInsert(fr, k, b), nu, b.End())
  {
    FreedFits(fr, k, b);
    var g :| Fits(FreeInsert(fr, k, b), g, b.size);
    assert Fits(FreeInsert(fr, k, b), g, nu);
    if !SomeFit(fr, nu) {
      FreedOnTop(fr, k, b, nu);
    }
  }

  /** Every unit of the data segment is in exactly one block, free or live. */
  lemma OneOwner(mem: map<int, Header>, fr: seq<Blk>, live: map<int, int>, arena: set<int>, base: int,
                 brk: int, u: int)
    requires Circle(mem, fr, live, arena, base, brk) && u in arena
    ensures InFree(fr, u) <==> !InLive(live, u)
    ensures forall i, j :: 1 <= i < |fr| && 1 <= j < |fr| && Covers(fr[i], u) && Covers(fr[j], u) ==> i == j
    ensures forall a, b :: a in live && b in live && Covers(Blk(a, live[a]), u) && Covers(Blk(b, live[b]), u) ==> a == b
  {
    if InLive(live, u) {
      var a :| a in live && Covers(Blk(a, live[a]), u);
      assert forall k {:trigger fr[k]} :: 1 <= k < |fr| ==> Clear(fr[k], Blk(a, live[a]));
    }
    forall i, j | 1 <= i < |fr| && 1 <= j < |fr| && Covers(fr[i], u) && Covers(fr[j], u) ensures i == j {
      assert i < j ==> Before(fr, i, j);
      assert j < i ==> Before(fr, j, i);
    }
    forall a, b | a in live && b in live && Covers(Blk(a, live[a]), u) && Covers(Blk(b, live[b]), u)
      ensures a == b
    {
      assert a != b ==> Clear(Blk(a, live[a]), Blk(b, live[b]));
    }
  }

  /** A program may overwrite any unit of a live block but its header. */
  lemma PayloadIsFree(mem: map<int, Header>, fr: seq<Blk>, live: map<int, int>, arena: set<int>, base: int,
                      brk: int, a: int, u: int, h: Header)
    requires Circle(mem, fr, live, arena, base, brk) && a in live && a < u < a + live[a]
    ensures Circle(mem[u := h], fr, live, arena, base, brk)
  {
    var mem' := mem[u := h];
    forall k | 0 <= k < |fr| ensures NodeOk(mem', fr, k) {
      assert NodeOk(mem, fr, k);
      assert k >= 1 ==> Clear(fr[k], Blk(a, live[a]));
    }
    forall c | c in live ensures live[c] >= 1 && c > base && c in mem' && mem'[c].size == live[c] {
      assert live[c] >= 1;
      assert c != a ==> Clear(Blk(c, live[c]), Blk(a, live[a]));
    }
  }

  /** What the fields of the heap stand for: the circle from `base` on, the position of
      freep in it, the headers of the blocks handed out with their sizes, the units of the
      spans that morecore() has taken itself to be given, and the end of the last. */
  datatype View = View(fr: seq<Blk>, at: int, live: map<int, int>, arena: set<int>, top: int)

  /** malloc() took the tail of the first block that fits. */
  ghost predicate CarvedFirst(fr: seq<Blk>, at: int, n: int, fr': seq<Blk>, a: int) {
    exists g :: FirstFit(fr, at, g, n) && Carved(fr, g, n, fr', a)
  }

  lemma UntouchedTwice(live: map<int, int>, m0: map<int, Header>, m1: map<int, Header>, m2: map<int, Header>)
    requires Untouched(live, m0, m1) && Untouched(live, m1, m2)
    ensures Untouched(live, m0, m2)
  {
    forall a | a in live ensures SameUnits(a, live[a], m0, m2) {
      assert SameUnits(a, live[a], m0, m1) && SameUnits(a, live[a], m1, m2);
    }
  }

  class Heap {
    const base: int

    var mem: map<int, Header>
    /** 0 until the first call of malloc(). */
    var freep: int
    /** End of the data segment, where sbrk() takes units from. */
    var brk: int
    ghost var v: View

    ghost predicate Started()
      reads this
    {
      && 0 < base < v.top && freep != 0 && Circle(mem, v.fr, v.live, v.arena, base, v.top)
      && 0 <= v.at < |v.fr| && v.fr[v.at].addr == freep
    }

    /** In order, and all of it in memory that sbrk() gave. */
    ghost predicate Valid()
      reads this
    {
      && 0 < base < v.top <= brk
      && if freep == 0 then v.live == map[] && v.arena == {} else Started()
    }

    constructor (b: int, end: int)
      requires 0 < b < end
      ensures Valid() && base == b && brk == end && v.live == map[] && v.arena == {}
    {
      base, mem, freep, brk := b, map[], 0, end;
      v := View([], 0, map[], {}, end);
    }

    /** The search of free(): the circle position the block belongs after. */
    method Search(bp: int) returns (p: int, ghost k: int)
      requires Started() && bp in v.live
      ensures Slot(v.fr, k, Blk(bp, v.live[bp])) && p == v.fr[k].addr
    {
      ghost var b, n := Blk(bp, v.live[bp]), |v.fr|;
      ghost var s := FindSlot(v.fr, v.live, bp, base, mem);
      HeadersPresent(mem, v.fr, v.at);
      p, k := freep, v.at;
      while !(bp > p && bp < mem[p].ptr)
        invariant 0 <= k < n && p == v.fr[k].addr && p in mem && mem[p].ptr == v.fr[Nx(k, n)].addr
        decreases Dist(k, s, n)
      {
        SlotTest(v.fr, k, s, b);
        if p >= mem[p].ptr && (bp > p || bp < mem[p].ptr) {
          break;
        }
        HeadersPresent(mem, v.fr, Nx(k, n));
        p := mem[p].ptr;
        k := Nx(k, n);
      }
      SlotTest(v.fr, k, s, b);
    }

    /** The body of free() after its search. */
    method Coalesce(p: int, bp: int, ghost k: int)
      requires Started() && bp in v.live && Slot(v.fr, k, Blk(bp, v.live[bp])) && p == v.fr[k].addr
      modifies this`mem, this`freep, this`v
      ensures Started() && v.at == k && Freed(old(mem), old(v).fr, old(v).live, k, bp, mem, v.fr, v.live)
      ensures v.arena == old(v).arena && v.top == old(v).top
    {
      FreeStep(mem, v.fr, v.live, v.arena, base, v.top, k, bp);
      ghost var mem0 := mem;
      var next := mem[p].ptr;
      if bp + mem[bp].size == next {
        mem := mem[bp := Header(mem[bp].ptr, mem[bp].size + mem[next].size)];
        mem := mem[bp := Header(mem[next].ptr, mem[bp].size)];
      } else {
        mem := mem[bp := Header(next, mem[bp].size)];
      }
      ghost var mem1 := mem;
      assert mem1 == MemUp(mem0, p, bp);
      if p + mem[p].size == bp {
        mem := mem[p := Header(mem[p].ptr, mem[p].size + mem[bp].size)];
        mem := mem[p := Header(mem[bp].ptr, mem[p].size)];
      } else {
        mem := mem[p := Header(bp, mem[p].size)];
      }
      assert mem == MemDown(mem1, p, bp);
      freep := p;
      v := View(FreeInsert(v.fr, k, Blk(bp, v.live[bp])), k, v.live - {bp}, v.arena, v.top);
    }

    /** free(): puts a live block back, joining it with whatever it touches. */
    method Free(ap: int)
      requires Started() && ap - 1 in v.live
      modifies this`mem, this`freep, this`v
      ensures Started() && Freed(old(mem), old(v).fr, old(v).live, v.at, ap - 1, mem, v.fr, v.live)
      ensures v.arena == old(v).arena && v.top == old(v).top
    {
      var p, k := Search(ap - 1);
      Coalesce(p, ap - 1, k);
    }

    /** sbrk(): fails if there is no room, or moves the break and returns where it was;
        others may have raised it before, to `higher`.  A break that would fall below zero
        stays. */
    method Sbrk(bytes: int, room: bool, higher: int) returns (ok: bool, p: int)
      requires bytes % 16 == 0
      modifies this`brk
      ensures ok == room
      ensures ok ==>
                p == (if higher < old(brk) then old(brk) else higher)
                && brk == if p + bytes / 16 >= 0 then p + bytes / 16 else p
      ensures !ok ==> brk == old(brk)
    {
      ok, p := room, 0;
      if ok {
        p := if higher < brk then brk else higher;
        brk := if p + bytes / 16 >= 0 then p + bytes / 16 else p;
      }
    }

    /** Takes n units from sbrk() and gives them a header; 0 if there are none. */
    method Extend(n: int, room: bool, higher: int) returns (p: int)
      requires Started() && v.top <= brk && 4096 <= n <= MAX_UNITS
      modifies this`mem, this`v, this`brk
      ensures Started() && Untouched(old(v).live, old(mem), mem) && (p == 0 <==> !room)
      ensures p == 0 ==> unchanged(this)
      ensures p != 0 ==> p !in old(v).live && p >= old(v).top && (p + n <= brk <==> n < 0x800_0000)
      ensures p != 0 ==>
                v == View(old(v).fr, old(v).at, old(v).live[p := n], old(v).arena + Span(p, n), p + n)
      ensures p != 0 ==> forall k {:trigger v.fr[k]} :: 0 <= k < |v.fr| ==> v.fr[k].End() <= p && v.fr[k].addr < p
    {
      SbrkArgumentExact(n);
      var ok;
      ok, p := Sbrk(SbrkArgument(n), room, higher);
      if !ok {
        return 0;
      }
      var hp := Header(if p in mem then mem[p].ptr else 0, n);
      BelowBreak(v.fr, v.live, v.arena, base, v.top);
      GrowStep(mem, v.fr, v.live, v.arena, base, v.top, p, hp);
      mem := mem[p := hp];
      v := View(v.fr, v.at, v.live[p := n], v.arena + Span(p, n), p + n);
    }

    /** Takes a span of n units, above all blocks, and frees it; 0 if there is none. */
    method Grow(n: int, room: bool, higher: int) returns (p: int)
      requires Started() && v.top <= brk && 4096 <= n <= MAX_UNITS
      modifies this`mem, this`freep, this`v, this`brk
      ensures Started() && v.live == old(v).live && Untouched(v.live, old(mem), mem) && (p == 0 <==> !room)
      ensures p == 0 ==> unchanged(this)
      ensures p != 0 ==> Slot(old(v).fr, v.at, Blk(p, n)) && v.fr == FreeInsert(old(v).fr, v.at, Blk(p, n))
      ensures p != 0 ==> forall k {:trigger old(v).fr[k]} :: 0 <= k < |old(v).fr| ==> old(v).fr[k].addr < p
      ensures p != 0 ==> old(v).top <= p && v.top == p + n && v.arena == old(v).arena + Span(p, n)
      ensures p != 0 ==> (v.top <= brk <==> n < 0x800_0000)
    {
      p := Extend(n, room, higher);
      if p != 0 {
        ghost var mem1 := mem;
        Free(p + 1);
        assert v.live == old(v).live;
        UntouchedTwice(old(v).live, old(mem), mem1, mem);
      }
    }

    /** morecore(): frees a new span of at least 4096 units, or fails, exactly if sbrk() does,
        and changes nothing.
        The span is in memory that sbrk() gave exactly when its size fits sbrk()'s int. */
    method Morecore(nu: int, room: bool, higher: int) returns (r: int)
      requires Started() && v.top <= brk && 1 <= nu <= MAX_UNITS
      modifies this`mem, this`freep, this`v, this`brk
      ensures Started() && v.live == old(v).live && Untouched(v.live, old(mem), mem)
      ensures r == if room then freep else 0
      ensures r == 0 ==> unchanged(this)
      ensures r != 0 ==> SomeFit(v.fr, nu) && Extended(old(v).arena, old(v).top, nu, v.arena, v.top)
      ensures r != 0 ==> (v.top <= brk <==> nu < 0x800_0000)
      ensures r != 0 && !SomeFit(old(v).fr, nu) ==> OnlyTopFits(v.fr, nu, v.top)
    {
      var n := if nu < 4096 then 4096 else nu;
      var p := Grow(n, room, higher);
      if p == 0 {
        return 0;
      }
      SpanFits(old(v).fr, v.at, Blk(p, n), nu);
      r := freep;
    }

    /** One turn of malloc()'s search, from freep round to freep. */
    method Round(n: int) returns (found: bool, prevp: int, p: int, ghost g: int)
      requires Started() && n >= 1
      ensures found <==> SomeFit(v.fr, n)
      ensures found ==> FirstFit(v.fr, v.at, g, n) && 1 <= g && p == v.fr[g].addr && prevp == v.fr[g - 1].addr
    {
      HeadersPresent(mem, v.fr, v.at);
      g := Nx(v.at, |v.fr|);
      prevp, p := freep, mem[freep].ptr;
      ghost var j := v.at;
      HeadersPresent(mem, v.fr, g);
      while mem[p].size < n
        invariant 0 <= g < |v.fr| && p == v.fr[g].addr && 0 <= j < |v.fr| && prevp == v.fr[j].addr
        invariant g == Nx(j, |v.fr|)
        invariant p in mem && mem[p] == Header(v.fr[Nx(g, |v.fr|)].addr, v.fr[g].size)
        invariant forall i {:trigger Fits(v.fr, i, n)} ::
                    0 <= i < |v.fr| && Turn(v.at, i, |v.fr|) < Turn(v.at, g, |v.fr|) ==> !Fits(v.fr, i, n)
        decreases |v.fr| - Turn(v.at, g, |v.fr|)
      {
        assert !Fits(v.fr, g, n);
        if p == freep {
          DistinctAddrs(v.fr, g, v.at);
          return false, prevp, p, g;
        }
        HeadersPresent(mem, v.fr, Nx(g, |v.fr|));
        prevp, p := p, mem[p].ptr;
        j, g := g, Nx(g, |v.fr|);
      }
      assert Fits(v.fr, g, n);
      found := true;
    }

    /** Unlinks position g, or splits its tail off. */
    method Take(prevp: int, p: int, n: int, ghost g: int) returns (r: int)
      requires Started() && CanCarve(v.fr, g, n) && p == v.fr[g].addr && prevp == v.fr[g - 1].addr
      modifies this`mem, this`freep, this`v
      ensures Started() && freep == prevp && v.fr == Carve(old(v).fr, g, n)
      ensures r - 1 == CarvedAt(old(v).fr[g], n) && r - 1 !in old(v).live && v.live == old(v).live[r - 1 := n]
      ensures v.arena == old(v).arena && v.top == old(v).top && r > 0
      ensures Untouched(old(v).live, old(mem), mem)
    {
      assert Before(v.fr, 0, g);
      CarveStep(mem, v.fr, v.live, v.arena, base, v.top, g, n);
      HeadersPresent(mem, v.fr, g);
      ghost var mem0 := mem;
      var q := p;
      if mem[p].size == n {
        mem := mem[prevp := Header(mem[p].ptr, mem[prevp].size)];
      } else {
        mem := mem[p := Header(mem[p].ptr, mem[p].size - n)];
        q := p + mem[p].size;
        mem := mem[q := Header(if q in mem then mem[q].ptr else 0, n)];
      }
      assert mem == MemCarved(mem0, prevp, p, n);
      freep := prevp;
      r := q + 1;
      v := View(Carve(v.fr, g, n), g - 1, v.live[q := n], v.arena, v.top);
    }

    /** The first call makes `base` the whole circle. */
    method Start()
      requires Valid()
      modifies this`mem, this`freep, this`v
      ensures Started() && Untouched(v.live, old(mem), mem)
      ensures if old(freep) == 0 then v == View([Blk(base, 0)], 0, old(v).live, old(v).arena, old(v).top)
                else unchanged(this)
    {
      if freep == 0 {
        freep, mem := base, mem[base := Header(base, 0)];
        v := View([Blk(base, 0)], 0, v.live, v.arena, v.top);
        assert NodeOk(mem, v.fr, 0);
        forall u ensures !InFree(v.fr, u) && !InLive(v.live, u) {
        }
      }
    }

    /** malloc() after a turn that found nothing: new memory, and a turn that finds it. */
    method Refill(n: int, room: bool, higher: int) returns (r: int)
      requires Started() && v.top <= brk && 1 <= n <= MAX_UNITS && !SomeFit(v.fr, n)
      modifies this
      ensures Started() && Untouched(old(v).live, old(mem), mem) && (r == 0 <==> !room)
      ensures r == 0 ==> unchanged(this)
      ensures r != 0 ==> r - 1 !in old(v).live && v.live == old(v).live[r - 1 := n] && r - 1 + n == v.top
      ensures r != 0 ==> Extended(old(v).arena, old(v).top, n, v.arena, v.top) && (v.top <= brk <==> n < 0x800_0000)
    {
      var q := Morecore(n, room, higher);
      if q == 0 {
        return 0;
      }
      ghost var mem1 := mem;
      var found, prevp, p, g := Round(n);
      assert Fits(v.fr, g, n);
      r := Take(prevp, p, n, g);
      UntouchedTwice(old(v).live, old(mem), mem1, mem);
    }

    /** malloc(): a fresh live block with room for `nbytes` bytes, from the first free
        block that fits or from new memory; 0 exactly when nothing fits and sbrk() fails.
        Everything is still in memory that sbrk() gave, except exactly when a request of
        2^27 units or more fits no free block and sbrk() succeeds: then the block handed
        out ends above the break. */
    method Malloc(nbytes: int, room: bool, higher: int) returns (r: int)
      requires Valid() && 0 <= nbytes <= 0xFFFF_FFFF
      modifies this
      ensures Started() && Untouched(old(v).live, old(mem), mem)
      ensures r == 0 <==> !room && (old(freep) == 0 || !SomeFit(old(v).fr, Units(nbytes)))
      ensures r == 0 ==>
                v.live == old(v).live && v.arena == old(v).arena && brk == old(brk) && !SomeFit(v.fr, Units(nbytes))
      ensures r != 0 ==> r - 1 !in old(v).live && v.live == old(v).live[r - 1 := Units(nbytes)]
      ensures old(freep) != 0 && r == 0 ==> unchanged(this)
      ensures old(freep) != 0 && SomeFit(old(v).fr, Units(nbytes)) ==>
                CarvedFirst(old(v).fr, old(v).at, Units(nbytes), v.fr, r - 1) && v.arena == old(v).arena
                    && v.top == old(v).top && brk == old(brk)
      ensures (v.arena == old(v).arena && v.top == old(v).top && brk == old(brk))
              || Extended(old(v).arena, old(v).top, Units(nbytes), v.arena, v.top)
      ensures Valid() <==> Units(nbytes) < 0x800_0000 || v.top == old(v).top
      ensures !Valid() ==> r != 0 && r - 1 + Units(nbytes) > brk
    {
      var n := Units(nbytes);
      Start();
      assert old(freep) == 0 ==> forall k {:trigger Fits(v.fr, k, n)} :: 0 <= k < |v.fr| ==> !Fits(v.fr, k, n);
      ghost var fits := SomeFit(v.fr, n);
      var found, prevp, p, g := Round(n);
      assert found <==> fits;
      if found {
        r := Take(prevp, p, n, g);
      } else {
        r := Refill(n, room, higher);
      }
    }
  }
}
