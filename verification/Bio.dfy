/** The buffer cache of kernel/bio.c.

    `buf[NBUF]` is a static array, so a `struct buf *` is an index into it, and
    index NBUF stands for `bcache.head`.  The doubly linked ring through `prev`
    and `next` is kept in recency order. */
module Bio {
  import opened Blocks

  const NBUF := 30
  const ROOTDEV: nat := 1

  /** `locked` is the buffer's sleep-lock; a method that needs it requires it. */
  datatype Buf = Buf(valid: bool, dev: nat, blockno: nat, refcnt: nat, locked: bool, data: Block)

  /** Buffer i is the cache entry for the block. */
  ghost predicate Cached(bs: seq<Buf>, i: int, dev: nat, blockno: nat) {
    0 <= i < |bs| && bs[i].dev == dev && bs[i].blockno == blockno
  }

  ghost predicate Apart(bs: seq<Buf>, i: int, j: int)
    requires 0 <= i < |bs| && 0 <= j < |bs|
  {
    bs[i].dev == 0 || bs[i].dev != bs[j].dev || bs[i].blockno != bs[j].blockno
  }

  /** No block of a real device is cached twice.  The zeroed buffers of a fresh
      cache all carry device 0, so the claim is about the other devices. */
  ghost predicate Unique(bs: seq<Buf>) {
    forall i, j {:trigger Apart(bs, i, j)} :: 0 <= i < j < |bs| ==> Apart(bs, i, j)
  }

  lemma UniqueCached(bs: seq<Buf>, i: int, j: int)
    requires Unique(bs) && 0 <= i < |bs| && 0 <= j < |bs| && bs[i].dev != 0
    requires bs[i].dev == bs[j].dev && bs[i].blockno == bs[j].blockno
    ensures i == j
  {
    assert i < j ==> Apart(bs, i, j);
    assert j < i ==> Apart(bs, j, i);
  }

  ghost predicate HeldCounted(bs: seq<Buf>) {
    forall i {:trigger bs[i].locked} :: 0 <= i < |bs| && bs[i].locked ==> bs[i].refcnt > 0
  }

  /** `ring[k]` is the k-th buffer after the head; `pos` is its inverse, so the
      ring is a permutation of the buffers. */
  ghost predicate Permutation(ring: seq<int>, pos: seq<int>) {
    && |ring| == |pos|
    && (forall k :: 0 <= k < |ring| ==> 0 <= ring[k] < |pos| && pos[ring[k]] == k)
    && (forall i :: 0 <= i < |pos| ==> 0 <= pos[i] < |ring| && ring[pos[i]] == i)
  }

  /** Successor of ring position k - 1, where position -1 and the last one plus
      one are the head. */
  ghost function At(ring: seq<int>, k: int): int {
    if 0 <= k < |ring| then ring[k] else NBUF
  }

  ghost predicate Linked(ring: seq<int>, next: seq<int>, prev: seq<int>) {
    && |next| == |prev| == NBUF + 1 && |ring| <= NBUF
    && (forall k :: 0 <= k < |ring| ==> 0 <= ring[k] < NBUF)
    && (forall k {:trigger next[At(ring, k)]} :: -1 <= k < |ring| ==> next[At(ring, k)] == At(ring, k + 1))
    && (forall k {:trigger prev[At(ring, k)]} :: 0 <= k <= |ring| ==> prev[At(ring, k)] == At(ring, k - 1))
  }

  /** Further along the ring means released longer ago. */
  ghost predicate Recency(ring: seq<int>, stamp: seq<int>, clock: int) {
    && |stamp| == NBUF
    && (forall k :: 0 <= k < |ring| ==> 0 <= ring[k] < NBUF && stamp[ring[k]] < clock)
    && (forall k, l :: 0 <= k < l < |ring| ==> stamp[ring[k]] > stamp[ring[l]])
  }

  /** The ring after moving the buffer at position k to the front. */
  ghost function ToFront(ring: seq<int>, k: int): seq<int>
    requires 0 <= k < |ring|
  {
    [ring[k]] + ring[..k] + ring[k + 1..]
  }

  ghost function PosToFront(pos: seq<int>, k: int): seq<int> {
    seq(|pos|, i requires 0 <= i < |pos| =>
      if pos[i] == k then 0 else if pos[i] < k then pos[i] + 1 else pos[i])
  }

  lemma ToFrontPermutation(ring: seq<int>, pos: seq<int>, k: int)
    requires Permutation(ring, pos) && 0 <= k < |ring|
    ensures Permutation(ToFront(ring, k), PosToFront(pos, k))
  {
    var r, p := ToFront(ring, k), PosToFront(pos, k);
    forall j | 0 <= j < |r| ensures 0 <= r[j] < |p| && p[r[j]] == j {
      assert r[j] == if j == 0 then ring[k] else if j <= k then ring[j - 1] else ring[j];
    }
    forall i | 0 <= i < |p| ensures 0 <= p[i] < |r| && r[p[i]] == i {
      assert ring[pos[i]] == i;
    }
  }

  lemma ToFrontRecency(ring: seq<int>, stamp: seq<int>, clock: int, k: int)
    requires Recency(ring, stamp, clock) && 0 <= k < |ring|
    requires forall i, j :: 0 <= i < j < |ring| ==> ring[i] != ring[j]
    ensures Recency(ToFront(ring, k), stamp[ring[k] := clock], clock + 1)
  {
    var r := ToFront(ring, k);
    forall j | 0 <= j < |r|
      ensures r[j] == if j == 0 then ring[k] else if j <= k then ring[j - 1] else ring[j]
    {
    }
  }

  ghost predicate NoDup(ring: seq<int>) {
    forall i, j :: 0 <= i < j < |ring| ==> ring[i] != ring[j]
  }

  lemma PushLinked(ring: seq<int>, next: seq<int>, prev: seq<int>, b: int)
    requires Linked(ring, next, prev) && NoDup(ring) && 0 <= b < NBUF && b !in ring && |ring| < NBUF
    ensures 0 <= At(ring, 0) <= NBUF
    ensures Linked([b] + ring, next[b := At(ring, 0)][NBUF := b], prev[b := NBUF][At(ring, 0) := b])
  {
    var r, n, p := [b] + ring, next[b := At(ring, 0)][NBUF := b], prev[b := NBUF][At(ring, 0) := b];
    forall k | -1 <= k < |r| ensures n[At(r, k)] == At(r, k + 1) {
      if k >= 1 {
        assert At(r, k) == At(ring, k - 1) == ring[k - 1];
        assert next[At(ring, k - 1)] == At(ring, k);
      }
    }
    forall k | 0 <= k <= |r| ensures p[At(r, k)] == At(r, k - 1) {
      if k >= 2 {
        assert At(r, k) == At(ring, k - 1) && At(r, k - 1) == ring[k - 2];
        assert prev[At(ring, k - 1)] == At(ring, k - 2);
        assert At(ring, k - 1) != At(ring, 0);
      }
    }
  }

  /** The ring without the buffer at position k. */
  ghost function Without(ring: seq<int>, k: int): seq<int>
    requires 0 <= k < |ring|
  {
    ring[..k] + ring[k + 1..]
  }

  lemma UnlinkLinked(ring: seq<int>, next: seq<int>, prev: seq<int>, k: int)
    requires Linked(ring, next, prev) && NoDup(ring) && 0 <= k < |ring|
    ensures 0 <= At(ring, k - 1) <= NBUF && 0 <= At(ring, k + 1) <= NBUF
    ensures Linked(Without(ring, k), next[At(ring, k - 1) := At(ring, k + 1)],
                   prev[At(ring, k + 1) := At(ring, k - 1)])
  {
    var r := Without(ring, k);
    var n, p := next[At(ring, k - 1) := At(ring, k + 1)], prev[At(ring, k + 1) := At(ring, k - 1)];
    forall j | -1 <= j < |r| ensures n[At(r, j)] == At(r, j + 1) {
      var i := if j < k then j else j + 1;
      assert At(r, j) == At(ring, i);
      assert next[At(ring, i)] == At(ring, i + 1);
      assert i != k - 1 ==> At(ring, i) != At(ring, k - 1);
    }
    forall j | 0 <= j <= |r| ensures p[At(r, j)] == At(r, j - 1) {
      var i := if j < k then j else j + 1;
      assert At(r, j) == At(ring, i);
      assert prev[At(ring, i)] == At(ring, i - 1);
      assert i != k + 1 ==> At(ring, i) != At(ring, k + 1);
    }
  }

  lemma PermutationNoDup(ring: seq<int>, pos: seq<int>)
    requires Permutation(ring, pos)
    ensures NoDup(ring)
  {
    forall i, j | 0 <= i < j < |ring| ensures ring[i] != ring[j] {
      assert pos[ring[i]] == i && pos[ring[j]] == j;
    }
  }

  lemma TakenOut(ring: seq<int>, pos: seq<int>, k: int)
    requires Permutation(ring, pos) && 0 <= k < |ring|
    ensures NoDup(ring) && NoDup(Without(ring, k)) && ring[k] !in Without(ring, k)
  {
    PermutationNoDup(ring, pos);
    var r := Without(ring, k);
    assert forall i :: 0 <= i < |r| ==> r[i] == ring[if i < k then i else i + 1];
  }

  /** What moving a buffer to the front does to the whole ring. */
  lemma MovedToFront(ring: seq<int>, pos: seq<int>, stamp: seq<int>, clock: int, k: int)
    requires |ring| == NBUF && Permutation(ring, pos) && Recency(ring, stamp, clock) && 0 <= k < NBUF
    ensures [ring[k]] + Without(ring, k) == ToFront(ring, k) && |ToFront(ring, k)| == NBUF
    ensures Permutation(ToFront(ring, k), PosToFront(pos, k)) && ToFront(ring, k)[0] == ring[k]
    ensures Recency(ToFront(ring, k), stamp[ring[k] := clock], clock + 1)
    ensures forall i {:trigger stamp[i]} :: 0 <= i < NBUF ==> stamp[i] < clock
  {
    PermutationNoDup(ring, pos);
    ToFrontPermutation(ring, pos, k);
    ToFrontRecency(ring, stamp, clock, k);
    forall i | 0 <= i < NBUF ensures stamp[i] < clock {
      assert ring[pos[i]] == i;
    }
  }

  lemma UniqueUpdate(bs: seq<Buf>, b: int, nb: Buf)
    requires Unique(bs) && 0 <= b < |bs|
    requires (nb.dev == bs[b].dev && nb.blockno == bs[b].blockno)
          || (forall i :: 0 <= i < |bs| ==> !Cached(bs, i, nb.dev, nb.blockno))
    ensures Unique(bs[b := nb])
  {
    var cs := bs[b := nb];
    forall i, j | 0 <= i < j < |cs| ensures Apart(cs, i, j) {
      assert Apart(bs, i, j);
      assert nb.dev != bs[b].dev || nb.blockno != bs[b].blockno ==>
        !Cached(bs, i, nb.dev, nb.blockno) && !Cached(bs, j, nb.dev, nb.blockno);
    }
  }

  class BCache {
    const disk: Disk
    const buf: array<Buf>
    const next: array<int>
    const prev: array<int>

    /** The contents of `buf`. */
    ghost var bufs: seq<Buf>
    ghost var ring: seq<int>
    ghost var pos: seq<int>
    /** When each buffer last moved to the front of the ring. */
    ghost var stamp: seq<int>
    ghost var clock: int

    ghost predicate RingOk()
      reads this, next, prev
    {
      && buf.Length == NBUF && next.Length == NBUF + 1 && prev.Length == NBUF + 1 && next != prev
      && |ring| == NBUF
      && Permutation(ring, pos)
      && Linked(ring, next[..], prev[..])
      && Recency(ring, stamp, clock)
    }

    ghost predicate Valid()
      reads this, buf, next, prev
    {
      RingOk() && buf[..] == bufs && Unique(bufs) && HeldCounted(bufs)
    }

    /** Inserts a buffer right after the head of the ring `r`. */
    method PushFront(b: int, ghost r: seq<int>)
      requires next.Length == prev.Length == NBUF + 1 && next != prev
      requires 0 <= b < NBUF && b !in r && NoDup(r) && |r| < NBUF && Linked(r, next[..], prev[..])
      modifies next, prev
      ensures Linked([b] + r, next[..], prev[..])
    {
      assert next[..][At(r, -1)] == At(r, 0);
      PushLinked(r, next[..], prev[..], b);
      var first := next[NBUF];
      next[b], prev[b] := first, NBUF;
      prev[first] := b;
      next[NBUF] := b;
      assert next[..] == old(next[..])[b := first][NBUF := b];
      assert prev[..] == old(prev[..])[b := NBUF][first := b];
    }

    /** binit(): every buffer is pushed at the head, so the last one is first. */
    constructor (d: Disk)
      ensures Valid() && disk == d && fresh(buf) && fresh(next) && fresh(prev)
      ensures bufs == seq(NBUF, _ => Buf(false, 0, 0, 0, false, ZeroBlock()))
    {
      disk := d;
      buf := new Buf[NBUF](_ => Buf(false, 0, 0, 0, false, ZeroBlock()));
      next := new int[NBUF + 1](_ => NBUF);
      prev := new int[NBUF + 1](_ => NBUF);
      bufs := seq(NBUF, _ => Buf(false, 0, 0, 0, false, ZeroBlock()));
      ring, pos, stamp, clock := [], seq(NBUF, i => NBUF - 1 - i), seq(NBUF, i => i), NBUF;
      new;
      var b := 0;
      while b < NBUF
        invariant 0 <= b <= NBUF
        invariant ring == seq(b, i => b - 1 - i)
        invariant Linked(ring, next[..], prev[..])
        modifies next, prev, this`ring
      {
        PushFront(b, ring);
        ring := [b] + ring;
        b := b + 1;
      }
    }

    /** Takes the k-th buffer out of the ring `r`. */
    method Unlink(b: int, ghost r: seq<int>, ghost k: int)
      requires next.Length == prev.Length == NBUF + 1 && next != prev
      requires Linked(r, next[..], prev[..]) && NoDup(r) && 0 <= k < |r| && r[k] == b
      modifies next, prev
      ensures Linked(Without(r, k), next[..], prev[..])
    {
      assert next[..][At(r, k)] == At(r, k + 1) && prev[..][At(r, k)] == At(r, k - 1);
      UnlinkLinked(r, next[..], prev[..], k);
      var p, n := prev[b], next[b];
      prev[n] := p;
      next[p] := n;
      assert next[..] == old(next[..])[p := n] && prev[..] == old(prev[..])[n := p];
    }

    /** The forward scan of bget(); NBUF when the block is not cached. */
    method FindCached(dev: nat, blockno: nat) returns (b: int)
      requires Valid()
      ensures 0 <= b <= NBUF
      ensures b < NBUF ==> Cached(bufs, b, dev, blockno)
      ensures b == NBUF ==> forall i :: 0 <= i < NBUF ==> !Cached(bufs, i, dev, blockno)
    {
      assert next[..][At(ring, -1)] == At(ring, 0);
      b := next[NBUF];
      ghost var k := 0;
      while b != NBUF
        invariant 0 <= k <= NBUF && b == At(ring, k)
        invariant forall j :: 0 <= j < k ==> !Cached(bufs, ring[j], dev, blockno)
        decreases NBUF - k
      {
        if buf[b].dev == dev && buf[b].blockno == blockno {
          return;
        }
        assert next[..][At(ring, k)] == At(ring, k + 1);
        b := next[b];
        k := k + 1;
      }
      assert k == NBUF;
      forall i | 0 <= i < NBUF ensures !Cached(buf[..], i, dev, blockno) {
        assert !Cached(buf[..], ring[pos[i]], dev, blockno);
      }
    }

    /** The backward scan of bget(): the least recently released unused buffer, or
        NBUF when every buffer is referenced. */
    method FindVictim() returns (b: int)
      requires Valid()
      ensures 0 <= b <= NBUF
      ensures b < NBUF ==> bufs[b].refcnt == 0 && forall i :: 0 <= i < NBUF && bufs[i].refcnt == 0 ==>
                stamp[b] <= stamp[i]
      ensures b == NBUF ==> forall i :: 0 <= i < NBUF ==> bufs[i].refcnt > 0
    {
      assert prev[..][At(ring, NBUF)] == At(ring, NBUF - 1);
      b := prev[NBUF];
      ghost var k := NBUF - 1;
      while b != NBUF
        invariant -1 <= k < NBUF && b == At(ring, k)
        invariant forall j :: k < j < NBUF ==> buf[ring[j]].refcnt > 0
        decreases k
      {
        if buf[b].refcnt == 0 {
          forall i | 0 <= i < NBUF && buf[i].refcnt == 0 ensures stamp[b] <= stamp[i] {
            assert ring[pos[i]] == i;
          }
          return;
        }
        assert prev[..][At(ring, k)] == At(ring, k - 1);
        b := prev[b];
        k := k - 1;
      }
      assert k == -1;
      forall i | 0 <= i < NBUF ensures buf[i].refcnt > 0 {
        assert buf[ring[pos[i]]].refcnt > 0;
      }
    }

    /** Overwrites one buffer's fields, leaving its place in the ring. */
    method Update(b: int, nb: Buf)
      requires Valid() && 0 <= b < NBUF && (nb.locked ==> nb.refcnt > 0)
      requires (nb.dev == bufs[b].dev && nb.blockno == bufs[b].blockno)
            || (forall i :: 0 <= i < NBUF ==> !Cached(bufs, i, nb.dev, nb.blockno))
      modifies buf, this`bufs
      ensures Valid() && bufs == old(bufs)[b := nb]
    {
      UniqueUpdate(bufs, b, nb);
      buf[b] := nb;
      bufs := bufs[b := nb];
    }

    /** bget(): a cached block gains a reference; otherwise the least recently
        released buffer that nobody references is recycled.  The result NBUF is
        panic("bget: no buffers"). */
    method Bget(dev: nat, blockno: nat) returns (b: int)
      requires Valid() && dev != 0
      modifies buf, this`bufs
      ensures Valid() && 0 <= b <= NBUF
      ensures b == NBUF ==> bufs == old(bufs) && forall i :: 0 <= i < NBUF ==> bufs[i].refcnt > 0
      ensures b < NBUF && Cached(old(bufs), b, dev, blockno) ==>
        bufs == old(bufs)[b := old(bufs[b]).(refcnt := old(bufs[b]).refcnt + 1)]
      ensures b == NBUF || !Cached(old(bufs), b, dev, blockno) ==>
        forall i :: 0 <= i < NBUF ==> !Cached(old(buf[..]), i, dev, blockno)
      ensures b < NBUF && !Cached(old(bufs), b, dev, blockno) ==>
        && old(bufs[b]).refcnt == 0
        && (forall i :: 0 <= i < NBUF && old(bufs[i]).refcnt == 0 ==> stamp[b] <= stamp[i])
        && bufs == old(bufs)[b := Buf(false, dev, blockno, 1, false, old(bufs[b]).data)]
    {
      b := FindCached(dev, blockno);
      if b != NBUF {
        Update(b, buf[b].(refcnt := buf[b].refcnt + 1));
        return;
      }
      b := FindVictim();
      if b != NBUF {
        Update(b, Buf(false, dev, blockno, 1, false, buf[b].data));
      }
    }

    /** bread(): the buffer for a block, locked, holding the disk's contents unless
        it was cached and valid already.  The caller waits until the buffer's
        sleep-lock is free.  The result NBUF is the panic of bget(). */
    method Bread(dev: nat, blockno: nat) returns (b: int)
      requires Valid() && dev != 0 && blockno < |disk.image|
      requires forall i :: 0 <= i < NBUF && Cached(bufs, i, dev, blockno) ==> !bufs[i].locked
      modifies buf, this`bufs
      ensures Valid() && 0 <= b <= NBUF
      ensures b == NBUF ==> bufs == old(bufs) && forall i :: 0 <= i < NBUF ==> bufs[i].refcnt > 0
      ensures b == NBUF || !Cached(old(bufs), b, dev, blockno) ==>
        forall i :: 0 <= i < NBUF ==> !Cached(old(buf[..]), i, dev, blockno)
      ensures b < NBUF && !Cached(old(bufs), b, dev, blockno) ==>
        && old(bufs[b]).refcnt == 0
        && (forall i :: 0 <= i < NBUF && old(bufs[i]).refcnt == 0 ==> stamp[b] <= stamp[i])
        && bufs == old(bufs)[b := Buf(true, dev, blockno, 1, true, disk.image[blockno])]
      ensures b < NBUF && Cached(old(bufs), b, dev, blockno) ==>
        bufs == old(bufs)[b := Buf(true, dev, blockno, old(bufs[b]).refcnt + 1, true,
                                         if old(buf[b]).valid then old(buf[b]).data else disk.image[blockno])]
    {
      b := Bget(dev, blockno);
      if b != NBUF {
        Update(b, buf[b].(locked := true));
        if !buf[b].valid {
          var data := disk.Read(blockno);
          Update(b, buf[b].(valid := true, data := data));
        }
      }
    }

    /** bwrite(): the buffer's contents go to its block on the disk. */
    method Bwrite(b: int)
      requires Valid() && 0 <= b < NBUF && bufs[b].locked && bufs[b].blockno < |disk.image|
      modifies disk
      ensures disk.image == old(disk.image)[bufs[b].blockno := bufs[b].data]
      ensures disk.trace == old(disk.trace) + [Write(bufs[b].blockno, bufs[b].data)]
    {
      disk.WriteBlock(buf[b].blockno, buf[b].data);
    }

    method MoveToFront(b: int)
      requires Valid() && 0 <= b < NBUF
      modifies this`ring, this`pos, this`stamp, this`clock, next, prev
      ensures Valid()
      ensures stamp == old(stamp)[b := old(clock)] && ring[0] == b
      ensures forall i :: 0 <= i < NBUF && i != b ==> stamp[i] < stamp[b]
    {
      ghost var k := pos[b];
      TakenOut(ring, pos, k);
      Unlink(b, ring, k);
      PushFront(b, Without(ring, k));
      MovedToFront(ring, pos, stamp, clock, k);
      ring, pos, stamp, clock := ToFront(ring, k), PosToFront(pos, k), stamp[b := clock], clock + 1;
    }

    /** brelse(): unlocks; a buffer nobody references any more becomes the most
        recently released one. */
    method Brelse(b: int)
      requires Valid() && 0 <= b < NBUF && bufs[b].locked
      modifies this, buf, next, prev
      ensures Valid()
      ensures bufs == old(bufs)[b := old(bufs[b]).(locked := false, refcnt := old(bufs[b]).refcnt - 1)]
      ensures old(bufs[b]).refcnt == 1 ==>
        stamp == old(stamp)[b := old(clock)] && ring[0] == b && forall i :: 0 <= i < NBUF && i != b ==>
            stamp[i] < stamp[b]
      ensures old(bufs[b]).refcnt > 1 ==> ring == old(ring) && stamp == old(stamp)
    {
      Update(b, buf[b].(locked := false, refcnt := buf[b].refcnt - 1));
      if buf[b].refcnt == 0 {
        MoveToFront(b);
      }
    }

    method Bpin(b: int)
      requires Valid() && 0 <= b < NBUF
      modifies buf, this`bufs
      ensures Valid() && bufs == old(bufs)[b := old(bufs[b]).(refcnt := old(bufs[b]).refcnt + 1)]
    {
      Update(b, buf[b].(refcnt := buf[b].refcnt + 1));
    }

    /** bunpin() never moves a buffer, so its caller must hold another reference. */
    method Bunpin(b: int)
      requires Valid() && 0 <= b < NBUF && bufs[b].refcnt > 1
      modifies buf, this`bufs
      ensures Valid() && bufs == old(bufs)[b := old(bufs[b]).(refcnt := old(bufs[b]).refcnt - 1)]
    {
      Update(b, buf[b].(refcnt := buf[b].refcnt - 1));
    }
  }
}
