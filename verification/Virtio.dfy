/** The disk driver of kernel/virtio_disk.c against its device. */
module Virtio {
  // Split virtqueues (section 2.6 of VIRTIO 1.1) carry block requests (section 5.2).  Driver
  // methods run with vdisk_lock held, between the points where it sleeps; the device's own
  // steps come between them in any order.

  const NUM := 8
  const F_NEXT := 1
  const F_WRITE := 2
  /** Bytes of a block, and of the command header of section 5.2.6. */
  const BSIZE := 1024
  const COMMAND_BYTES := 16

  /** What a descriptor's address points to: a command header, a buffer's data, or the
      status byte of an info entry. */
  datatype Addr = Null | Header(i: int) | Data(b: int) | Status(i: int)

  datatype Desc = Desc(addr: Addr, len: int, flags: int, next: int)

  /** `kind` is 0 to read from the disk, 1 to write to it. */
  datatype Command = Command(kind: int, sector: int)

  const NO_BUF := -1

  datatype Info = Info(b: int, status: int)

  /** A request's chain starts at descriptor `head` and goes on to i1 and i2.  It is
      submitted, then taken by the device, then in the used ring, then acknowledged by the
      interrupt handler. */
  datatype Phase = Submitted | Fetched | Done | Acked

  datatype Request = Request(i1: int, i2: int, write: bool, blockno: int, buf: int, phase: Phase)

  // ----- the free flags -----

  function FreeCount(free: seq<bool>): (n: int)
    ensures 0 <= n <= |free|
  {
    if free == [] then 0 else FreeCount(free[..|free| - 1]) + (if free[|free| - 1] then 1 else 0)
  }

  lemma {:induction false} FreeCountUpdate(free: seq<bool>, i: int, v: bool)
    requires 0 <= i < |free|
    ensures FreeCount(free[i := v]) == FreeCount(free) + (if v then 1 else 0) - (if free[i] then 1 else 0)
  {
    var n := |free| - 1;
    var g := free[i := v];
    if i == n {
      assert g[..n] == free[..n];
    } else {
      assert g[..n] == free[..n][i := v];
      FreeCountUpdate(free[..n], i, v);
    }
  }

  lemma {:induction false} FreeCountZero(free: seq<bool>)
    ensures FreeCount(free) == 0 <==> forall i :: 0 <= i < |free| ==> !free[i]
  {
    if free != [] {
      FreeCountZero(free[..|free| - 1]);
      assert forall i :: 0 <= i < |free| - 1 ==> free[i] == free[..|free| - 1][i];
    }
  }

  lemma {:induction false} AllFree(free: seq<bool>)
    requires forall i :: 0 <= i < |free| ==> free[i]
    ensures FreeCount(free) == |free|
  {
    if free != [] {
      AllFree(free[..|free| - 1]);
    }
  }

  function Eight<T>(x: T): (s: seq<T>)
    ensures |s| == NUM && forall i :: 0 <= i < NUM ==> s[i] == x
  {
    [x, x, x, x, x, x, x, x]
  }

  // ----- chains -----

  /** The three descriptors of a request say what it is. */
  predicate Formatted(desc: seq<Desc>, ops: seq<Command>, h: int, r: Request) {
    && |desc| == |ops| == NUM && 0 <= h < NUM && 0 <= r.i1 < NUM && 0 <= r.i2 < NUM
    && desc[h] == Desc(Header(h), 16, F_NEXT, r.i1)
    && desc[r.i1] == Desc(Data(r.buf), 1024, (if r.write then 0 else F_WRITE) + F_NEXT, r.i2)
    && desc[r.i2] == Desc(Status(h), 1, F_WRITE, 0)
    && ops[h] == Command(if r.write then 1 else 0, 2 * r.blockno)
  }

  ghost predicate ChainOk(free: seq<bool>, desc: seq<Desc>, ops: seq<Command>, info: seq<Info>,
                          busy: set<int>, chains: map<int, Request>, h: int)
    requires h in chains
  {
    var r := chains[h];
    && |free| == |info| == NUM && Formatted(desc, ops, h, r)
    && h != r.i1 && h != r.i2 && r.i1 != r.i2 && !free[h] && !free[r.i1] && !free[r.i2]
    && info[h].b == r.buf && (r.buf in busy <==> r.phase != Acked)
    && (r.phase.Done? ==> info[h].status == 0)
  }

  predicate Uses(h: int, r: Request, d: int) {
    d == h || d == r.i1 || d == r.i2
  }

  ghost predicate Apart(chains: map<int, Request>, h: int, k: int)
    requires h in chains && k in chains
  {
    && chains[h].buf != chains[k].buf
    && !Uses(k, chains[k], h) && !Uses(k, chains[k], chains[h].i1) && !Uses(k, chains[k], chains[h].i2)
  }

  // ----- rings -----

  ghost predicate Shows(ring: seq<int>, log: seq<int>, chains: map<int, Request>, phase: Phase, k: int)
    requires 0 <= k < |log| && |ring| == NUM
  {
    ring[k % NUM] == log[k] && log[k] in chains && chains[log[k]].phase == phase
  }

  ghost predicate Differ(log: seq<int>, j: int, k: int)
    requires 0 <= j < |log| && 0 <= k < |log|
  {
    log[j] != log[k]
  }

  ghost predicate InWindow(log: seq<int>, lo: int, h: int) {
    exists k :: 0 <= lo <= k < |log| && log[k] == h
  }

  /** Positions lo .. |log| - 1 of a ring hold the heads of `log`, distinct chains that
      are in this phase, and no other chain is. */
  ghost predicate RingOk(ring: seq<int>, log: seq<int>, lo: int, chains: map<int, Request>, phase: Phase) {
    && |ring| == NUM && 0 <= lo <= |log| <= lo + NUM
    && (forall k {:trigger Shows(ring, log, chains, phase, k)} :: lo <= k < |log| ==>
         Shows(ring, log, chains, phase, k))
    && (forall j, k {:trigger Differ(log, j, k)} :: lo <= j < k < |log| ==> Differ(log, j, k))
    && (forall h {:trigger InWindow(log, lo, h)} :: h in chains && chains[h].phase == phase ==>
         InWindow(log, lo, h))
  }

  /** Heads of the chains in a phase that no ring shows. */
  ghost predicate PhaseSet(s: set<int>, chains: map<int, Request>, phase: Phase) {
    forall h {:trigger h in s} {:trigger h in chains} :: h in s <==> h in chains && chains[h].phase == phase
  }

  /** The low 16 bits of a count of entries. */
  function Idx16(n: int): int
    decreases n
  {
    if n < 0x1_0000 then n else Idx16(n - 0x1_0000)
  }

  lemma {:induction false} Idx16Low(n: int)
    requires 0 <= n
    ensures Idx16(n) == n % 0x1_0000 && 0 <= Idx16(n) < 0x1_0000 && Idx16(n) % NUM == n % NUM
    decreases n
  {
    if n >= 0x1_0000 {
      Idx16Low(n - 0x1_0000);
    }
  }

  /** What adding 1 does to a 16-bit index. */
  function Inc16(i: int): int {
    if i == 0xFFFF then 0 else i + 1
  }

  /** A 16-bit index stands for the count it wraps: it selects the same ring slot, and
      two counts at most NUM apart have equal indices only when they are equal. */
  lemma Idx16Ok(n: int, m: int)
    requires 0 <= n <= m <= n + NUM
    ensures Idx16(n) % NUM == n % NUM && (Idx16(n) == Idx16(m) <==> n == m)
    ensures Inc16(Idx16(n)) == Idx16(n + 1)
  {
    Idx16Low(n);
    Idx16Low(m);
    Idx16Low(n + 1);
  }

  lemma SlotsDiffer(j: int, k: int)
    requires 0 <= j < k < j + NUM
    ensures j % NUM != k % NUM
  {
  }

  /** Adding to the end of a ring that has room. */
  lemma RingPush(ring: seq<int>, log: seq<int>, lo: int, chains: map<int, Request>,
                 chains': map<int, Request>, phase: Phase, h: int)
    requires RingOk(ring, log, lo, chains, phase) && |log| < lo + NUM && h in chains'
    requires chains'[h].phase == phase
    requires h !in chains || chains[h].phase != phase
    requires forall k {:trigger k in chains'} {:trigger k in chains} :: k != h ==>
               (k in chains <==> k in chains')
    requires forall k {:trigger chains'[k]} :: k != h && k in chains ==> chains'[k].phase == chains[k].phase
    ensures RingOk(ring[|log| % NUM := h], log + [h], lo, chains', phase)
  {
    var log', ring' := log + [h], ring[|log| % NUM := h];
    forall k | lo <= k < |log'| ensures Shows(ring', log', chains', phase, k) {
      if k < |log| {
        assert Shows(ring, log, chains, phase, k);
        assert log'[k] == log[k] && log[k] != h;
        SlotsDiffer(k, |log|);
      }
    }
    forall j, k | lo <= j < k < |log'| ensures Differ(log', j, k) {
      assert Shows(ring, log, chains, phase, j);
      assert log'[j] == log[j] != h;
      assert k < |log| ==> Differ(log, j, k);
    }
    forall g | g in chains' && chains'[g].phase == phase ensures InWindow(log', lo, g) {
      if g == h {
        assert log'[|log|] == h;
      } else {
        assert g in chains && chains[g].phase == phase && InWindow(log, lo, g);
        var k :| 0 <= lo <= k < |log| && log[k] == g;
        assert log'[k] == g;
      }
    }
  }

  /** Taking from the front. */
  lemma RingPop(ring: seq<int>, log: seq<int>, lo: int, chains: map<int, Request>, chains': map<int, Request>,
                phase: Phase)
    requires RingOk(ring, log, lo, chains, phase) && lo < |log|
    requires chains'.Keys == chains.Keys && log[lo] in chains && chains'[log[lo]].phase != phase
    requires forall k {:trigger chains'[k]} :: k != log[lo] && k in chains ==>
               chains'[k].phase == chains[k].phase
    ensures RingOk(ring, log, lo + 1, chains', phase)
  {
    var h := log[lo];
    forall k | lo + 1 <= k < |log| ensures Shows(ring, log, chains', phase, k) {
      assert Shows(ring, log, chains, phase, k) && Differ(log, lo, k);
    }
    forall g | g in chains' && chains'[g].phase == phase ensures InWindow(log, lo + 1, g) {
      assert g != h && InWindow(log, lo, g);
      var k :| 0 <= lo <= k < |log| && log[k] == g;
      assert k != lo;
    }
  }

  /** Changes elsewhere do not matter to a ring. */
  lemma RingKept(ring: seq<int>, log: seq<int>, lo: int, chains: map<int, Request>,
                 chains': map<int, Request>, phase: Phase)
    requires RingOk(ring, log, lo, chains, phase)
    requires forall h {:trigger chains'[h]} {:trigger h in chains'} {:trigger h in chains} ::
               (h in chains && chains[h].phase == phase <==> h in chains' && chains'[h].phase == phase)
    ensures RingOk(ring, log, lo, chains', phase)
  {
    forall k | lo <= k < |log| ensures Shows(ring, log, chains', phase, k) {
      assert Shows(ring, log, chains, phase, k);
      assert log[k] in chains && chains[log[k]].phase == phase;
    }
    forall g | g in chains' && chains'[g].phase == phase ensures InWindow(log, lo, g) {
      assert g in chains && chains[g].phase == phase;
    }
  }

  // ----- what the device reads -----

  /** A job as the device finds it by following a chain of the right lengths and directions:
      command, buffer, status byte. */
  datatype Job = NoJob | Job(kind: int, sector: int, buf: int, toMemory: bool, status: int)

  function Decode(desc: seq<Desc>, ops: seq<Command>, h: int): Job {
    if !(|desc| == |ops| == NUM && 0 <= h < NUM && desc[h].flags == F_NEXT && 0 <= desc[h].next < NUM
         && desc[h].addr.Header? && 0 <= desc[h].addr.i < NUM && desc[h].len == COMMAND_BYTES) then NoJob
    else
      var d1 := desc[desc[h].next];
      if !((d1.flags == F_NEXT || d1.flags == F_NEXT + F_WRITE) && 0 <= d1.next < NUM && d1.addr.Data?
           && d1.len == BSIZE && (d1.flags == F_NEXT <==> ops[desc[h].addr.i].kind == 1)) then NoJob
      else
        var d2 := desc[d1.next];
        if !(d2.flags == F_WRITE && d2.addr.Status? && d2.len == 1) then NoJob
        else Job(ops[desc[h].addr.i].kind, ops[desc[h].addr.i].sector, d1.addr.b, d1.flags == F_NEXT + F_WRITE,
                 d2.addr.i)
  }

  /** The device reads back exactly the request that was made. */
  lemma DecodeFormatted(desc: seq<Desc>, ops: seq<Command>, h: int, r: Request)
    requires Formatted(desc, ops, h, r)
    ensures Decode(desc, ops, h) == Job(if r.write then 1 else 0, 2 * r.blockno, r.buf, !r.write, h)
  {
  }

  /** A chain that a change left alone. */
  lemma ChainKept(free: seq<bool>, desc: seq<Desc>, ops: seq<Command>, info: seq<Info>, busy: set<int>,
                  chains: map<int, Request>,
                  free': seq<bool>, desc': seq<Desc>, ops': seq<Command>, info': seq<Info>, busy': set<int>,
                      chains': map<int, Request>, h: int)
    requires h in chains && ChainOk(free, desc, ops, info, busy, chains, h) && h in chains'
    requires chains'[h] == chains[h]
    requires |free'| == |desc'| == |ops'| == |info'| == NUM
    requires forall d :: 0 <= d < NUM && Uses(h, chains[h], d) ==> !free'[d] && desc'[d] == desc[d]
    requires ops'[h] == ops[h] && info'[h] == info[h]
    requires (chains[h].buf in busy' <==> chains[h].buf in busy)
    ensures ChainOk(free', desc', ops', info', busy', chains', h)
  {
  }

  ghost predicate ChainsOk(free: seq<bool>, desc: seq<Desc>, ops: seq<Command>, info: seq<Info>,
                           busy: set<int>, chains: map<int, Request>) {
    && |free| == |desc| == |ops| == |info| == NUM
    && (forall h {:trigger ChainOk(free, desc, ops, info, busy, chains, h)} :: h in chains ==>
         ChainOk(free, desc, ops, info, busy, chains, h))
    && (forall h, k {:trigger Apart(chains, h, k)} :: h in chains && k in chains && h != k ==>
         Apart(chains, h, k))
  }

  /** Both rings show exactly the chains they should, and every chain is somewhere. */
  ghost predicate RingsOk(chains: map<int, Request>, availRing: seq<int>, submitted: seq<int>, seen: int,
                          fetched: set<int>,
                          usedRing: seq<int>, done: seq<int>, processed: int, acked: set<int>) {
    && RingOk(availRing, submitted, seen, chains, Submitted)
    && RingOk(usedRing, done, processed, chains, Done)
    && PhaseSet(fetched, chains, Fetched) && PhaseSet(acked, chains, Acked)
    && |chains| == (|submitted| - seen) + |fetched| + (|done| - processed) + |acked|
  }

  lemma PhaseKept(s: set<int>, chains: map<int, Request>, chains': map<int, Request>, phase: Phase, h: int)
    requires PhaseSet(s, chains, phase)
    requires h in chains ==> chains[h].phase != phase
    requires h in chains' ==> chains'[h].phase != phase
    requires forall k {:trigger k in chains'} {:trigger k in chains} :: k != h ==>
               (k in chains <==> k in chains') && (k in chains ==> chains'[k].phase == chains[k].phase)
    ensures PhaseSet(s, chains', phase)
  {
  }

  lemma RingsSubmit(chains: map<int, Request>, availRing: seq<int>, submitted: seq<int>, seen: int, fetched: set<int>,
                    usedRing: seq<int>, done: seq<int>, processed: int, acked: set<int>, h: int, q: Request)
    requires RingsOk(chains, availRing, submitted, seen, fetched, usedRing, done, processed, acked)
    requires h !in chains && q.phase == Submitted && 3 * |chains| <= NUM
    ensures RingsOk(chains[h := q], availRing[|submitted| % NUM := h], submitted + [h], seen, fetched, usedRing, done,
                    processed, acked)
  {
    var more := chains[h := q];
    RingPush(availRing, submitted, seen, chains, more, Submitted, h);
    RingKept(usedRing, done, processed, chains, more, Done);
    PhaseKept(fetched, chains, more, Fetched, h);
    PhaseKept(acked, chains, more, Acked, h);
    assert more.Keys == chains.Keys + {h};
    assert |more| == |more.Keys|;
  }

  lemma PhaseAdded(s: set<int>, chains: map<int, Request>, chains': map<int, Request>, phase: Phase, h: int)
    requires PhaseSet(s, chains, phase) && h in chains && chains[h].phase != phase
    requires chains' == chains[h := chains[h].(phase := phase)]
    ensures PhaseSet(s + {h}, chains', phase) && |s + {h}| == |s| + 1 && |chains'| == |chains|
  {
    assert h !in s;
    assert chains'.Keys == chains.Keys;
    assert |chains'| == |chains'.Keys|;
  }

  lemma RingsFetch(chains: map<int, Request>, availRing: seq<int>, submitted: seq<int>, seen: int, fetched: set<int>,
                   usedRing: seq<int>, done: seq<int>, processed: int, acked: set<int>)
    requires RingsOk(chains, availRing, submitted, seen, fetched, usedRing, done, processed, acked)
    requires seen < |submitted|
    ensures var h := submitted[seen];
            h in chains && chains[h].phase == Submitted && availRing[seen % NUM] == h
            && RingsOk(chains[h := chains[h].(phase := Fetched)], availRing, submitted, seen + 1, fetched + {h},
                       usedRing, done, processed, acked)
  {
    var h := submitted[seen];
    assert Shows(availRing, submitted, chains, Submitted, seen);
    var more := chains[h := chains[h].(phase := Fetched)];
    RingPop(availRing, submitted, seen, chains, more, Submitted);
    RingKept(usedRing, done, processed, chains, more, Done);
    PhaseAdded(fetched, chains, more, Fetched, h);
    PhaseKept(acked, chains, more, Acked, h);
  }

  lemma PhaseRemoved(s: set<int>, chains: map<int, Request>, chains': map<int, Request>, phase: Phase, h: int)
    requires PhaseSet(s, chains, phase) && h in chains && chains[h].phase == phase
    requires chains' == chains - {h} || (exists q: Phase ::
                                         q != phase && chains' == chains[h := chains[h].(phase := q)])
    ensures PhaseSet(s - {h}, chains', phase) && |s - {h}| == |s| - 1
    ensures h in chains' ==> |chains'| == |chains|
  {
    assert h in s;
    if h in chains' {
      assert chains'.Keys == chains.Keys;
      assert |chains'| == |chains'.Keys|;
    }
  }

  lemma RingsComplete(chains: map<int, Request>, availRing: seq<int>, submitted: seq<int>, seen: int, fetched: set<int>,
                      usedRing: seq<int>, done: seq<int>, processed: int, acked: set<int>, h: int)
    requires RingsOk(chains, availRing, submitted, seen, fetched, usedRing, done, processed, acked)
    requires h in fetched && 3 * |chains| <= NUM
    ensures h in chains && chains[h].phase == Fetched
    ensures RingsOk(chains[h := chains[h].(phase := Done)], availRing, submitted, seen, fetched - {h},
                    usedRing[|done| % NUM := h], done + [h], processed, acked)
  {
    assert h in chains;
    var more := chains[h := chains[h].(phase := Done)];
    RingPush(usedRing, done, processed, chains, more, Done, h);
    RingKept(availRing, submitted, seen, chains, more, Submitted);
    PhaseRemoved(fetched, chains, more, Fetched, h);
    PhaseKept(acked, chains, more, Acked, h);
  }

  lemma RingsAck(chains: map<int, Request>, availRing: seq<int>, submitted: seq<int>, seen: int, fetched: set<int>,
                 usedRing: seq<int>, done: seq<int>, processed: int, acked: set<int>)
    requires RingsOk(chains, availRing, submitted, seen, fetched, usedRing, done, processed, acked)
    requires processed < |done|
    ensures var h := done[processed];
            h in chains && chains[h].phase == Done && usedRing[processed % NUM] == h
            && RingsOk(chains[h := chains[h].(phase := Acked)], availRing, submitted, seen, fetched, usedRing, done,
                       processed + 1, acked + {h})
  {
    var h := done[processed];
    assert Shows(usedRing, done, chains, Done, processed);
    var more := chains[h := chains[h].(phase := Acked)];
    RingPop(usedRing, done, processed, chains, more, Done);
    RingKept(availRing, submitted, seen, chains, more, Submitted);
    PhaseKept(fetched, chains, more, Fetched, h);
    PhaseAdded(acked, chains, more, Acked, h);
  }

  lemma RingsFree(chains: map<int, Request>, availRing: seq<int>, submitted: seq<int>, seen: int, fetched: set<int>,
                  usedRing: seq<int>, done: seq<int>, processed: int, acked: set<int>, h: int)
    requires RingsOk(chains, availRing, submitted, seen, fetched, usedRing, done, processed, acked)
    requires h in chains && chains[h].phase == Acked
    ensures RingsOk(chains - {h}, availRing, submitted, seen, fetched, usedRing, done, processed, acked - {h})
    ensures |chains - {h}| == |chains| - 1
  {
    var rest := chains - {h};
    RingKept(availRing, submitted, seen, chains, rest, Submitted);
    RingKept(usedRing, done, processed, chains, rest, Done);
    PhaseKept(fetched, chains, rest, Fetched, h);
    PhaseRemoved(acked, chains, rest, Acked, h);
    assert rest.Keys == chains.Keys - {h};
    assert |rest| == |rest.Keys|;
  }

  lemma SameChains(free: seq<bool>, desc: seq<Desc>, ops: seq<Command>, info: seq<Info>, busy: set<int>,
                   chains: map<int, Request>, free': seq<bool>, desc': seq<Desc>)
    requires ChainsOk(free, desc, ops, info, busy, chains) && free' == free && |desc'| == NUM
    requires forall d :: 0 <= d < NUM && !free[d] ==> desc'[d] == desc[d]
    ensures ChainsOk(free', desc', ops, info, busy, chains)
  {
    forall h | h in chains ensures ChainOk(free', desc', ops, info, busy, chains, h) {
      assert ChainOk(free, desc, ops, info, busy, chains, h);
      ChainKept(free, desc, ops, info, busy, chains, free', desc', ops, info, busy, chains, h);
    }
  }

  /** A new chain on free descriptors is apart from all others. */
  lemma NewChain(free: seq<bool>, desc: seq<Desc>, ops: seq<Command>, info: seq<Info>, busy: set<int>,
                 chains: map<int, Request>,
                 free': seq<bool>, desc': seq<Desc>, ops': seq<Command>, info': seq<Info>, busy': set<int>, h: int,
                     r: Request)
    requires ChainsOk(free, desc, ops, info, busy, chains)
    requires |free'| == |desc'| == |ops'| == |info'| == NUM && 0 <= h < NUM && 0 <= r.i1 < NUM
    requires 0 <= r.i2 < NUM
    requires h != r.i1 && h != r.i2 && r.i1 != r.i2 && free[h] && free[r.i1] && free[r.i2]
    requires free' == free[h := false][r.i1 := false][r.i2 := false] && Formatted(desc', ops', h, r)
    requires r.phase == Submitted
    requires forall d :: 0 <= d < NUM && !free[d] ==> desc'[d] == desc[d]
    requires ops' == ops[h := ops'[h]] && info' == info[h := info'[h]] && info'[h].b == r.buf
    requires busy' == busy + {r.buf}
    requires forall k :: k in chains ==> chains[k].buf != r.buf
    ensures h !in chains
    ensures ChainsOk(free', desc', ops', info', busy', chains[h := r])
  {
    var more := chains[h := r];
    forall k | k in chains
      ensures k != h && !Uses(k, chains[k], h) && !Uses(k, chains[k], r.i1) && !Uses(k, chains[k], r.i2)
    {
      assert ChainOk(free, desc, ops, info, busy, chains, k);
    }
    forall k | k in more ensures ChainOk(free', desc', ops', info', busy', more, k) {
      if k != h {
        assert ChainOk(free, desc, ops, info, busy, chains, k);
        ChainKept(free, desc, ops, info, busy, chains, free', desc', ops', info', busy', more, k);
      }
    }
    forall j, k | j in more && k in more && j != k ensures Apart(more, j, k) {
      if j != h && k != h {
        assert Apart(chains, j, k);
      } else {
        assert ChainOk(free, desc, ops, info, busy, chains, if j == h then k else j);
      }
    }
  }

  /** A chain moves to another phase, with its buffer's flag and its status to match. */
  lemma PhaseChains(free: seq<bool>, desc: seq<Desc>, ops: seq<Command>, info: seq<Info>, busy: set<int>,
                    chains: map<int, Request>,
                    busy': set<int>, info': seq<Info>, h: int, phase: Phase)
    requires ChainsOk(free, desc, ops, info, busy, chains)
    requires h in chains && chains[h].phase != Acked
    requires info' == if phase == Done && 0 <= h < |info| then info[h := Info(info[h].b, 0)] else info
    requires busy' == if phase == Acked then busy - {chains[h].buf} else busy
    ensures ChainsOk(free, desc, ops, info', busy', chains[h := chains[h].(phase := phase)])
  {
    var more := chains[h := chains[h].(phase := phase)];
    forall k | k in chains ensures ChainOk(free, desc, ops, info', busy', more, k) {
      assert ChainOk(free, desc, ops, info, busy, chains, k);
      if k != h {
        assert Apart(chains, k, h);
        ChainKept(free, desc, ops, info, busy, chains, free, desc, ops, info', busy', more, k);
      }
    }
    forall j, k | j in chains && k in chains && j != k ensures Apart(more, j, k) {
      assert Apart(chains, j, k);
    }
  }

  /** Freeing a chain leaves the others. */
  lemma ChainGone(free: seq<bool>, desc: seq<Desc>, ops: seq<Command>, info: seq<Info>, busy: set<int>,
                  chains: map<int, Request>,
                  free': seq<bool>, desc': seq<Desc>, info': seq<Info>, h: int)
    requires ChainsOk(free, desc, ops, info, busy, chains)
    requires h in chains && |free'| == |desc'| == |info'| == NUM && 0 <= h < NUM
    requires 0 <= chains[h].i1 < NUM && 0 <= chains[h].i2 < NUM
    requires free' == free[h := true][chains[h].i1 := true][chains[h].i2 := true]
    requires info' == info[h := info'[h]]
    requires forall d :: 0 <= d < NUM && !Uses(h, chains[h], d) ==> desc'[d] == desc[d]
    ensures ChainsOk(free', desc', ops, info', busy, chains - {h})
  {
    var rest := chains - {h};
    forall k | k in rest ensures ChainOk(free', desc', ops, info', busy, rest, k) {
      assert ChainOk(free, desc, ops, info, busy, chains, k) && Apart(chains, k, h) && Apart(chains, h, k);
      ChainKept(free, desc, ops, info, busy, chains, free', desc', ops, info', busy, rest, k);
    }
    forall j, k | j in rest && k in rest && j != k ensures Apart(rest, j, k) {
      assert Apart(chains, j, k);
    }
  }

  // ----- the driver and the device -----

  /** `static struct disk` with the two rings: availRing, availIdx and the rest are the
      driver's; usedRing, devIdx (how many it finished) and devSeen (how far it has read
      the available ring) are written by the device.  usedIdx is how far the driver has
      looked in the used ring.  All indices are counted modulo 2^16. */
  datatype Queue = Queue(desc: seq<Desc>, free: seq<bool>, info: seq<Info>, ops: seq<Command>,
                         availRing: seq<int>, availIdx: int, usedIdx: int, usedRing: seq<int>, devIdx: int,
                             devSeen: int)

  /** The requests in flight by head; every head ever submitted, and how many the device
      has taken; every head ever finished, and how many the driver has acknowledged. */
  datatype Shadow = Shadow(chains: map<int, Request>, submitted: seq<int>, seen: int, fetched: set<int>,
                           done: seq<int>, processed: int, acked: set<int>)

  /** Whenever the lock is free: free descriptors and three for each request make up all. */
  ghost predicate Ok(q: Queue, busy: set<int>, g: Shadow) {
    && ChainsOk(q.free, q.desc, q.ops, q.info, busy, g.chains)
    && RingsOk(g.chains, q.availRing, g.submitted, g.seen, g.fetched, q.usedRing, g.done, g.processed, g.acked)
    && q.availIdx == Idx16(|g.submitted|) && q.devSeen == Idx16(g.seen) && q.devIdx == Idx16(|g.done|)
    && q.usedIdx == Idx16(g.processed)
    && FreeCount(q.free) + 3 * |g.chains| == NUM
  }

  function InPhase(chains: map<int, Request>, h: int, phase: Phase): map<int, Request>
    requires h in chains
  {
    chains[h := Request(chains[h].i1, chains[h].i2, chains[h].write, chains[h].blockno, chains[h].buf, phase)]
  }

  function AvailPush(q: Queue, h: int): Queue
    requires |q.availRing| == NUM
  {
    Queue(q.desc, q.free, q.info, q.ops, q.availRing[q.availIdx % NUM := h], Inc16(q.availIdx), q.usedIdx, q.usedRing,
          q.devIdx, q.devSeen)
  }

  lemma SubmitOk(q0: Queue, busy0: set<int>, g: Shadow, q: Queue, busy: set<int>, h: int, r: Request)
    requires Ok(q0, busy0, g) && |q.free| == |q.desc| == |q.ops| == |q.info| == NUM
    requires r.phase == Submitted
    requires 0 <= h < NUM && 0 <= r.i1 < NUM && 0 <= r.i2 < NUM && h != r.i1 && h != r.i2 && r.i1 != r.i2
    requires q0.free[h] && q0.free[r.i1] && q0.free[r.i2]
    requires q.free == q0.free[h := false][r.i1 := false][r.i2 := false]
    requires FreeCount(q.free) == FreeCount(q0.free) - 3 && Formatted(q.desc, q.ops, h, r)
    requires forall d :: 0 <= d < NUM && !q0.free[d] ==> q.desc[d] == q0.desc[d]
    requires q.ops == q0.ops[h := q.ops[h]] && q.info == q0.info[h := q.info[h]] && q.info[h].b == r.buf
    requires busy == busy0 + {r.buf}
    requires q.availRing == q0.availRing && q.availIdx == q0.availIdx && q.usedIdx == q0.usedIdx
    requires q.usedRing == q0.usedRing && q.devIdx == q0.devIdx && q.devSeen == q0.devSeen
    requires forall k :: k in g.chains ==> g.chains[k].buf != r.buf
    ensures h !in g.chains && |q.availRing| == NUM
    ensures Ok(AvailPush(q, h), busy, Shadow(g.chains[h := r], g.submitted + [h], g.seen, g.fetched, g.done,
                                             g.processed, g.acked))
  {
    NewChain(q0.free, q0.desc, q0.ops, q0.info, busy0, g.chains, q.free, q.desc, q.ops, q.info, busy, h, r);
    Idx16Ok(|g.submitted|, |g.submitted|);
    RingsSubmit(g.chains, q.availRing, g.submitted, g.seen, g.fetched, q.usedRing, g.done, g.processed, g.acked, h, r);
    assert g.chains[h := r].Keys == g.chains.Keys + {h};
    assert |g.chains[h := r]| == |g.chains[h := r].Keys|;
  }

  lemma SameSize(chains: map<int, Request>, h: int, phase: Phase)
    requires h in chains
    ensures |InPhase(chains, h, phase)| == |chains|
  {
    assert InPhase(chains, h, phase).Keys == chains.Keys;
    assert |InPhase(chains, h, phase)| == |InPhase(chains, h, phase).Keys|;
  }

  lemma FetchOk(q: Queue, busy: set<int>, g: Shadow, q': Queue, g': Shadow)
    requires Ok(q, busy, g) && q.devSeen != q.availIdx
    requires q' == Queue(q.desc, q.free, q.info, q.ops, q.availRing, q.availIdx, q.usedIdx, q.usedRing, q.devIdx,
                         Inc16(q.devSeen))
    requires 0 <= g.seen < |g.submitted| && g.submitted[g.seen] in g.chains ==>
               g' == Shadow(InPhase(g.chains, g.submitted[g.seen], Fetched), g.submitted, g.seen + 1,
                            g.fetched + {g.submitted[g.seen]}, g.done, g.processed, g.acked)
    ensures 0 <= g.seen < |g.submitted| && g.submitted[g.seen] in g.chains && |q.availRing| == NUM
    ensures q.availRing[q.devSeen % NUM] == g.submitted[g.seen]
    ensures Ok(q', busy, g')
  {
    Idx16Ok(g.seen, |g.submitted|);
    var h := g.submitted[g.seen];
    RingsFetch(g.chains, q.availRing, g.submitted, g.seen, g.fetched, q.usedRing, g.done, g.processed, g.acked);
    PhaseChains(q.free, q.desc, q.ops, q.info, busy, g.chains, busy, q.info, h, Fetched);
    assert InPhase(g.chains, h, Fetched) == g.chains[h := g.chains[h].(phase := Fetched)];
    SameSize(g.chains, h, Fetched);
  }

  function UsedPush(q: Queue, h: int): Queue
    requires |q.usedRing| == |q.info| == NUM && 0 <= h < NUM
  {
    Queue(q.desc, q.free, q.info[h := Info(q.info[h].b, 0)], q.ops, q.availRing, q.availIdx, q.usedIdx,
          q.usedRing[q.devIdx % NUM := h], Inc16(q.devIdx), q.devSeen)
  }

  lemma CompleteOk(q: Queue, busy: set<int>, g: Shadow, h: int)
    requires Ok(q, busy, g) && h in g.fetched
    ensures h in g.chains && Formatted(q.desc, q.ops, h, g.chains[h]) && |q.usedRing| == |q.info| == NUM
    ensures 0 <= h < NUM
    ensures Ok(UsedPush(q, h), busy, Shadow(InPhase(g.chains, h, Done), g.submitted, g.seen, g.fetched - {h},
                                            g.done + [h], g.processed, g.acked))
  {
    RingsComplete(g.chains, q.availRing, g.submitted, g.seen, g.fetched, q.usedRing, g.done, g.processed, g.acked, h);
    assert ChainOk(q.free, q.desc, q.ops, q.info, busy, g.chains, h);
    Idx16Ok(|g.done|, |g.done|);
    PhaseChains(q.free, q.desc, q.ops, q.info, busy, g.chains, busy, q.info[h := Info(q.info[h].b, 0)], h, Done);
    assert InPhase(g.chains, h, Done) == g.chains[h := g.chains[h].(phase := Done)];
    SameSize(g.chains, h, Done);
  }

  function Advanced(q: Queue): Queue {
    Queue(q.desc, q.free, q.info, q.ops, q.availRing, q.availIdx, Inc16(q.usedIdx), q.usedRing, q.devIdx, q.devSeen)
  }

  lemma AckOk(q: Queue, busy: set<int>, g: Shadow)
    requires Ok(q, busy, g) && q.usedIdx != q.devIdx
    ensures 0 <= g.processed < |g.done| && g.done[g.processed] in g.chains
    ensures |q.usedRing| == |q.info| == NUM
    ensures var h := g.done[g.processed];
            && g.chains[h].phase == Done && q.usedRing[q.usedIdx % NUM] == h && 0 <= h < NUM
            && q.info[h] == Info(g.chains[h].buf, 0)
            && Ok(Advanced(q), busy - {g.chains[h].buf},
                  Shadow(InPhase(g.chains, h, Acked), g.submitted, g.seen, g.fetched, g.done, g.processed + 1,
                         g.acked + {h}))
  {
    Idx16Ok(g.processed, |g.done|);
    var h := g.done[g.processed];
    RingsAck(g.chains, q.availRing, g.submitted, g.seen, g.fetched, q.usedRing, g.done, g.processed, g.acked);
    assert ChainOk(q.free, q.desc, q.ops, q.info, busy, g.chains, h);
    PhaseChains(q.free, q.desc, q.ops, q.info, busy, g.chains, busy - {g.chains[h].buf}, q.info, h, Acked);
    assert InPhase(g.chains, h, Acked) == g.chains[h := g.chains[h].(phase := Acked)];
    SameSize(g.chains, h, Acked);
  }

  lemma FinishOk(q: Queue, busy: set<int>, g: Shadow, q': Queue, h: int)
    requires Ok(q, busy, g) && h in g.chains && g.chains[h].buf !in busy
    requires |q'.free| == |q'.desc| == |q'.info| == NUM && 0 <= h < NUM && 0 <= g.chains[h].i1 < NUM
    requires 0 <= g.chains[h].i2 < NUM
    requires q'.free == q.free[h := true][g.chains[h].i1 := true][g.chains[h].i2 := true]
    requires q'.info == q.info[h := q'.info[h]]
    requires forall d :: 0 <= d < NUM && !Uses(h, g.chains[h], d) ==> q'.desc[d] == q.desc[d]
    requires q' == Queue(q'.desc, q'.free, q'.info, q.ops, q.availRing, q.availIdx, q.usedIdx, q.usedRing, q.devIdx,
                         q.devSeen)
    requires FreeCount(q'.free) == FreeCount(q.free) + 3
    ensures Ok(q', busy, Shadow(g.chains - {h}, g.submitted, g.seen, g.fetched, g.done, g.processed, g.acked - {h}))
  {
    assert ChainOk(q.free, q.desc, q.ops, q.info, busy, g.chains, h);
    ChainGone(q.free, q.desc, q.ops, q.info, busy, g.chains, q'.free, q'.desc, q'.info, h);
    RingsFree(g.chains, q.availRing, g.submitted, g.seen, g.fetched, q.usedRing, g.done, g.processed, g.acked, h);
  }

  /** What the interrupt handler does to a request. */
  function AfterAck(r: Request): Request {
    if r.phase == Done then Request(r.i1, r.i2, r.write, r.blockno, r.buf, Acked) else r
  }

  /** When one request is in the rings it is the one that the device takes next. */
  lemma NextToFetch(q: Queue, busy: set<int>, g: Shadow, h: int)
    requires Ok(q, busy, g) && g.chains.Keys == {h} && g.chains[h].phase == Submitted
    ensures q.devSeen != q.availIdx && 0 <= g.seen < |g.submitted| && g.submitted[g.seen] == h
  {
    assert InWindow(g.submitted, g.seen, h);
    Idx16Ok(g.seen, |g.submitted|);
    assert Shows(q.availRing, g.submitted, g.chains, Submitted, g.seen);
  }

  class VirtioDisk {
    var q: Queue
    /** The buffers whose `disk` flag is set. */
    var busy: set<int>
    /** Contents of buffers and of disk blocks. */
    var data: map<int, int>
    var image: map<int, int>
    ghost var g: Shadow

    ghost predicate Valid()
      reads this
    {
      Ok(q, busy, g)
    }

    /** virtio_disk_init(): every descriptor is free and nothing is in flight. */
    constructor (buffers: map<int, int>, blocks: map<int, int>)
      ensures Valid() && g == Shadow(map[], [], 0, {}, [], 0, {}) && busy == {} && data == buffers
      ensures image == blocks
    {
      q := Queue(Eight(Desc(Null, 0, 0, 0)), Eight(true), Eight(Info(NO_BUF, 0)), Eight(Command(0, 0)), Eight(0), 0, 0,
                 Eight(0), 0, 0);
      busy, data, image := {}, buffers, blocks;
      g := Shadow(map[], [], 0, {}, [], 0, {});
      assert FreeCount(Eight(true)) == NUM by {
        AllFree(Eight(true));
      }
    }

    /** alloc_desc(): the first free descriptor, or -1. */
    method AllocDesc() returns (i: int)
      requires |q.free| == NUM
      modifies this`q
      ensures i == -1 ==> q == old(q) && FreeCount(q.free) == 0
      ensures i != -1 ==> 0 <= i < NUM && old(q).free[i] && q == old(q).(free := old(q).free[i := false])
      ensures i != -1 ==> FreeCount(q.free) == FreeCount(old(q).free) - 1
    {
      i := 0;
      while i < NUM
        invariant 0 <= i <= NUM && q == old(q) && forall j :: 0 <= j < i ==> !q.free[j]
      {
        if q.free[i] {
          FreeCountUpdate(q.free, i, false);
          q := q.(free := q.free[i := false]);
          return;
        }
        i := i + 1;
      }
      FreeCountZero(q.free);
      i := -1;
    }

    /** free_desc(): its panics cannot happen to a descriptor in use. */
    method FreeDesc(i: int)
      requires |q.free| == |q.desc| == NUM && 0 <= i < NUM && !q.free[i]
      modifies this`q
      ensures q == old(q).(free := old(q).free[i := true], desc := old(q).desc[i := Desc(Null, 0, 0, 0)])
      ensures FreeCount(q.free) == FreeCount(old(q).free) + 1
    {
      FreeCountUpdate(q.free, i, true);
      q := q.(desc := q.desc[i := Desc(Null, 0, 0, 0)]);
      q := q.(free := q.free[i := true]);
    }

    /** alloc3_desc(): three distinct free descriptors, or none when fewer are free. */
    method Alloc3Desc() returns (ok: bool, i0: int, i1: int, i2: int)
      requires |q.free| == |q.desc| == NUM
      modifies this`q
      ensures |q.desc| == NUM
      ensures forall d :: 0 <= d < NUM && !old(q).free[d] ==> q.desc[d] == old(q).desc[d]
      ensures !ok ==> q == old(q).(desc := q.desc) && FreeCount(q.free) < 3
      ensures ok ==> 0 <= i0 < NUM && 0 <= i1 < NUM && 0 <= i2 < NUM && i0 != i1 && i0 != i2 && i1 != i2
      ensures ok ==>
                old(q).free[i0] && old(q).free[i1] && old(q).free[i2]
                    && q == old(q).(free := old(q).free[i0 := false][i1 := false][i2 := false])
      ensures ok ==> FreeCount(q.free) == FreeCount(old(q).free) - 3
    {
      ok, i0, i1, i2 := false, -1, -1, -1;
      i0 := AllocDesc();
      if i0 < 0 {
        return;
      }
      i1 := AllocDesc();
      if i1 < 0 {
        FreeDesc(i0);
        assert q.free == old(q).free;
        return;
      }
      i2 := AllocDesc();
      if i2 < 0 {
        FreeDesc(i0);
        FreeDesc(i1);
        assert q.free == old(q).free;
        return;
      }
      ok := true;
    }

    /** free_chain(): frees the three descriptors of a request and no others. */
    method FreeChain(h: int, ghost r: Request)
      requires |q.free| == NUM && Formatted(q.desc, q.ops, h, r) && h != r.i1 && h != r.i2
      requires r.i1 != r.i2 && !q.free[h] && !q.free[r.i1] && !q.free[r.i2]
      modifies this`q
      ensures |q.desc| == NUM
      ensures q == old(q).(desc := q.desc, free := old(q).free[h := true][r.i1 := true][r.i2 := true])
      ensures FreeCount(q.free) == FreeCount(old(q).free) + 3
      ensures forall d :: 0 <= d < NUM ==>
                q.desc[d] == if Uses(h, r, d) then Desc(Null, 0, 0, 0) else old(q).desc[d]
    {
      var i, more := h, true;
      ghost var left := 3;
      while more
        invariant 0 <= left <= 3 && (more <==> left > 0) && |q.desc| == |q.free| == NUM
        invariant more ==> i == (if left == 3 then h else if left == 2 then r.i1 else r.i2)
        invariant FreeCount(q.free) == FreeCount(old(q).free) + 3 - left
        invariant q == old(q).(desc := q.desc, free := q.free)
        invariant q.free == if left == 3 then old(q).free else if left == 2 then old(q).free[h := true]
                            else if left == 1 then old(q).free[h := true][r.i1 := true]
                                else old(q).free[h := true][r.i1 := true][r.i2 := true]
        invariant forall d :: 0 <= d < NUM && !Uses(h, r, d) ==> q.desc[d] == old(q).desc[d]
        invariant (left >= 2 ==> q.desc[r.i1] == old(q).desc[r.i1])
        invariant (left >= 1 ==> q.desc[r.i2] == old(q).desc[r.i2])
        invariant (left == 3 ==> q.desc[h] == old(q).desc[h])
        invariant (left < 3 ==> q.desc[h] == Desc(Null, 0, 0, 0)) && (left < 2 ==> q.desc[r.i1] == Desc(Null, 0, 0, 0))
        invariant (left == 0 ==> q.desc[r.i2] == Desc(Null, 0, 0, 0))
        decreases left
      {
        var flag, nxt := q.desc[i].flags, q.desc[i].next;
        FreeDesc(i);
        if flag % 2 == 1 {
          i := nxt;
        } else {
          more := false;
        }
        left := left - 1;
      }
    }

    /** Formats the three descriptors and records the buffer. */
    method Format(i0: int, i1: int, i2: int, write: bool, blockno: int, b: int)
      requires |q.desc| == |q.ops| == |q.info| == NUM && 0 <= i0 < NUM && 0 <= i1 < NUM && 0 <= i2 < NUM
      requires i0 != i1 && i0 != i2 && i1 != i2
      modifies this`q, this`busy
      ensures |q.info| == NUM
      ensures Formatted(q.desc, q.ops, i0, Request(i1, i2, write, blockno, b, Submitted))
      ensures (forall d :: 0 <= d < NUM && d != i0 && d != i1 && d != i2 ==> q.desc[d] == old(q).desc[d])
      ensures q == old(q).(desc := q.desc, ops := old(q).ops[i0 := q.ops[i0]], info := old(q).info[i0 := Info(b, 255)])
      ensures busy == old(busy) + {b}
    {
      q := q.(ops := q.ops[i0 := Command(if write then 1 else 0, blockno * 2)]);
      q := q.(desc := q.desc[i0 := Desc(Header(i0), 16, F_NEXT, i1)]);
      var flags := if write then 0 else F_WRITE;
      flags := flags + F_NEXT;
      q := q.(desc := q.desc[i1 := Desc(Data(b), 1024, flags, i2)]);
      q := q.(desc := q.desc[i2 := Desc(Status(i0), 1, F_WRITE, 0)]);
      busy := busy + {b};
      q := q.(info := q.info[i0 := Info(b, 255)]);
    }

    /** The first half of virtio_disk_rw(): a new request, or -1 (the caller then sleeps)
        when two are in flight. */
    method Submit(b: int, blockno: int, write: bool) returns (h: int)
      requires Valid() && forall k :: k in g.chains ==> g.chains[k].buf != b
      modifies this`q, this`busy, this`g
      ensures Valid()
      ensures h == -1 ==> g == old(g) && busy == old(busy) && |g.chains| == 2
      ensures h != -1 ==> h !in old(g).chains && h in g.chains && busy == old(busy) + {b}
      ensures h != -1 ==>
                g.chains[h] == Request(g.chains[h].i1, g.chains[h].i2, write, blockno, b, Submitted)
      ensures h != -1 ==>
                g == old(g).(chains := old(g).chains[h := g.chains[h]], submitted := old(g).submitted + [h])
    {
      var ok, i0, i1, i2 := Alloc3Desc();
      if !ok {
        SameChains(old(q).free, old(q).desc, q.ops, q.info, busy, g.chains, q.free, q.desc);
        return -1;
      }
      h := i0;
      ghost var r := Request(i1, i2, write, blockno, b, Submitted);
      Format(h, i1, i2, write, blockno, b);
      SubmitOk(old(q), old(busy), g, q, busy, h, r);
      q := q.(availRing := q.availRing[q.availIdx % NUM := h], availIdx := Inc16(q.availIdx));
      g := Shadow(g.chains[h := r], g.submitted + [h], g.seen, g.fetched, g.done, g.processed, g.acked);
    }

    /** The device takes the next entry of the available ring. */
    method DeviceFetch() returns (h: int)
      requires Valid() && q.devSeen != q.availIdx
      modifies this`q, this`g
      ensures Valid() && 0 <= old(g).seen < |g.submitted| && h == g.submitted[old(g).seen]
      ensures h in old(g).chains
      ensures g == old(g).(chains := InPhase(old(g).chains, h, Fetched), seen := old(g).seen + 1,
                           fetched := old(g).fetched + {h})
    {
      ghost var q' := Queue(q.desc, q.free, q.info, q.ops, q.availRing, q.availIdx, q.usedIdx, q.usedRing, q.devIdx,
                            Inc16(q.devSeen));
      ghost var g' := if 0 <= g.seen < |g.submitted| && g.submitted[g.seen] in g.chains
        then Shadow(InPhase(g.chains, g.submitted[g.seen], Fetched), g.submitted, g.seen + 1,
                    g.fetched + {g.submitted[g.seen]}, g.done, g.processed, g.acked)
        else g;
      FetchOk(q, busy, g, q', g');
      h := q.availRing[q.devSeen % NUM];
      q := q.(devSeen := Inc16(q.devSeen));
      g := g';
    }

    /** The device finishes any request it has taken: it does what the chain says, writes
        status 0, and adds the head to the used ring. */
    method DeviceComplete(h: int)
      requires Valid() && h in g.fetched && h in g.chains
      requires g.chains[h].buf in data && g.chains[h].blockno in image
      modifies this`q, this`data, this`image, this`g
      ensures Valid()
      ensures g == old(g).(chains := InPhase(old(g).chains, h, Done), fetched := old(g).fetched - {h},
                           done := old(g).done + [h])
      ensures data == if old(g).chains[h].write then old(data)
                else old(data)[old(g).chains[h].buf := old(image)[old(g).chains[h].blockno]]
      ensures image == if old(g).chains[h].write
                then old(image)[old(g).chains[h].blockno := old(data)[old(g).chains[h].buf]]
                else old(image)
    {
      CompleteOk(q, busy, g, h);
      var job := Decode(q.desc, q.ops, h);
      DecodeFormatted(q.desc, q.ops, h, g.chains[h]);
      if job.kind == 1 {
        image := image[job.sector / 2 := data[job.buf]];
      } else {
        data := data[job.buf := image[job.sector / 2]];
      }
      q := q.(info := q.info[job.status := Info(q.info[job.status].b, 0)], usedRing := q.usedRing[q.devIdx % NUM := h],
              devIdx := Inc16(q.devIdx));
      g := Shadow(InPhase(g.chains, h, Done), g.submitted, g.seen, g.fetched - {h}, g.done + [h], g.processed, g.acked);
    }

    /** One turn of the interrupt handler's loop: the entry clears `disk` on the buffer of
        its own request.  Its panic on a bad status cannot happen. */
    method IntrOne()
      requires Valid() && q.usedIdx != q.devIdx
      modifies this`q, this`busy, this`g
      ensures Valid() && 0 <= old(g).processed < |g.done| && g.done == old(g).done
      ensures g.done[old(g).processed] in old(g).chains
      ensures var h := g.done[old(g).processed];
        && old(g).chains[h].phase == Done && busy == old(busy) - {old(g).chains[h].buf}
        && q.devIdx == old(q).devIdx
        && g == old(g).(chains := InPhase(old(g).chains, h, Acked), processed := old(g).processed + 1,
                        acked := old(g).acked + {h})
    {
      AckOk(q, busy, g);
      var id := q.usedRing[q.usedIdx % NUM];
      assert q.info[id].status == 0;
      busy := busy - {q.info[id].b};
      q := q.(usedIdx := Inc16(q.usedIdx));
      g := Shadow(InPhase(g.chains, id, Acked), g.submitted, g.seen, g.fetched, g.done, g.processed + 1,
                  g.acked + {id});
    }

    /** virtio_disk_intr(): clears `disk` on the buffers of exactly the requests that the
        device has finished. */
    method Intr()
      requires Valid()
      modifies this`q, this`busy, this`g
      ensures Valid() && g.processed == |g.done| && g.done == old(g).done
      ensures g.chains.Keys == old(g).chains.Keys
      ensures forall h {:trigger g.chains[h]} :: h in g.chains ==> g.chains[h] == AfterAck(old(g).chains[h])
      ensures forall h {:trigger g.chains[h]} :: h in g.chains ==>
                (g.chains[h].buf in busy <==> g.chains[h].phase != Acked)
    {
      while q.usedIdx != q.devIdx
        invariant Valid() && g.done == old(g).done && g.chains.Keys == old(g).chains.Keys
        invariant forall h {:trigger g.chains[h]} :: h in g.chains ==>
                    g.chains[h] == old(g).chains[h] || g.chains[h] == AfterAck(old(g).chains[h])
        decreases |g.done| - g.processed
      {
        IntrOne();
      }
      Idx16Ok(g.processed, |g.done|);
      forall h | h in g.chains
        ensures g.chains[h].phase != Done && (g.chains[h].buf in busy <==> g.chains[h].phase != Acked)
      {
        assert ChainOk(q.free, q.desc, q.ops, q.info, busy, g.chains, h);
        assert g.chains[h].phase == Done ==> InWindow(g.done, g.processed, h);
      }
    }

    /** The second half of virtio_disk_rw(), once `disk` is clear: the chain is freed. */
    method Finish(h: int)
      requires Valid() && h in g.chains && g.chains[h].buf !in busy
      modifies this`q, this`g
      ensures Valid() && g == old(g).(chains := old(g).chains - {h}, acked := old(g).acked - {h})
      ensures 0 <= h < |q.info| && q.info[h].b == NO_BUF
      ensures forall d :: 0 <= d < |q.free| && Uses(h, old(g).chains[h], d) ==> q.free[d]
    {
      ghost var r := g.chains[h];
      assert ChainOk(q.free, q.desc, q.ops, q.info, busy, g.chains, h);
      q := q.(info := q.info[h := Info(NO_BUF, q.info[h].status)]);
      FreeChain(h, r);
      FinishOk(old(q), busy, g, q, h);
      g := Shadow(g.chains - {h}, g.submitted, g.seen, g.fetched, g.done, g.processed, g.acked - {h});
    }

    /** virtio_disk_rw() from end to end when nothing else is in flight: the request goes to the
        device and back, the block has been moved, and the queue is as empty as before. */
    method Rw(b: int, blockno: int, write: bool)
      requires Valid() && g.chains == map[] && b in data && blockno in image
      modifies this
      ensures Valid() && g.chains == map[] && b !in busy
      ensures data == if write then old(data) else old(data)[b := old(image)[blockno]]
      ensures image == if write then old(image)[blockno := old(data)[b]] else old(image)
    {
      var h := Submit(b, blockno, write);
      ghost var g1 := g;
      assert h != -1;
      NextToFetch(q, busy, g, h);
      var f := DeviceFetch();
      assert f == h && h in g.fetched;
      DeviceComplete(h);
      assert g.chains[h].phase == Done;
      Intr();
      Finish(h);
      assert g.chains == map[];
    }
  }
}
