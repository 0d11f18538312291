/** kernel/log.c on top of the buffer cache. */
module Log {
  // Admission, absorption, commit and recovery.  A method is one critical section of
  // log.lock or bcache.lock, or the commit that runs while `committing` keeps every
  // operation out.

  import opened Blocks
  import opened RedoLog
  import opened Bio

  const MAXOPBLOCKS := 10

  // ----- what cache, log and disk say together -----

  ghost function PinCount(b: Buf, pinned: set<int>): nat {
    if b.dev == ROOTDEV && b.blockno in pinned then 1 else 0
  }

  ghost predicate PinnedAt(bs: seq<Buf>, i: int, b: int) {
    0 <= i < |bs| && bs[i].dev == ROOTDEV && bs[i].blockno == b && bs[i].valid
  }

  ghost predicate HasPin(bs: seq<Buf>, b: int) {
    exists i :: PinnedAt(bs, i, b)
  }

  ghost predicate InPlace(image: Image, logical: Image, b: int)
    requires 0 <= b < |image| == |logical|
  {
    image[b] == logical[b]
  }

  /** One buffer against the logical contents: what it holds is current unless a
      client has it locked, and its reference count is the clients' references
      plus exactly one pin for a logged block. */
  ghost predicate BufOk(b: Buf, refs: int, logical: Image, pinned: set<int>) {
    && refs >= 0 && b.refcnt == refs + PinCount(b, pinned)
    && (b.locked ==> refs > 0)
    && (b.dev == ROOTDEV ==> b.blockno < |logical|)
    && (b.dev == ROOTDEV && b.valid && !b.locked ==> b.data == logical[b.blockno])
  }

  /** `logical` is the plain block map: the last contents logged or written for
      each block.  Cache and disk represent it. */
  ghost predicate Coherent(bs: seq<Buf>, refs: seq<int>, image: Image, logical: Image, pinned: set<int>) {
    && |refs| == |bs| && |image| == |logical|
    && (forall i {:trigger BufOk(bs[i], refs[i], logical, pinned)} :: 0 <= i < |bs| ==>
         BufOk(bs[i], refs[i], logical, pinned))
    && (forall b {:trigger InPlace(image, logical, b)} :: 0 <= b < |image| && b !in pinned ==>
         InPlace(image, logical, b))
    && (forall b {:trigger HasPin(bs, b)} :: b in pinned ==> HasPin(bs, b))
  }

  /** The buffer holds the logical contents of its block. */
  ghost predicate Current(b: Buf, logical: Image) {
    b.dev == ROOTDEV && b.valid && b.blockno < |logical| && b.data == logical[b.blockno]
  }

  /** A valid buffer that nobody references equals the disk. */
  lemma UnusedEqualsDisk(bs: seq<Buf>, refs: seq<int>, image: Image, logical: Image, pinned: set<int>, i: int)
    requires Coherent(bs, refs, image, logical, pinned) && 0 <= i < |bs|
    requires bs[i].refcnt == 0 && bs[i].valid && bs[i].dev == ROOTDEV
    ensures bs[i].blockno < |image| && bs[i].data == image[bs[i].blockno]
  {
    assert bs[i].blockno !in pinned && bs[i].blockno < |image| ==> InPlace(image, logical, bs[i].blockno);
    assert BufOk(bs[i], refs[i], logical, pinned);
  }

  /** Overwriting one buffer keeps coherence when the new entry is right for its
      block and the old entry was not the only copy of a pinned one. */
  lemma ReplaceCoherent(bs: seq<Buf>, refs: seq<int>, image: Image, logical: Image, pinned: set<int>,
                        i: int, nb: Buf, nr: int)
    requires Coherent(bs, refs, image, logical, pinned) && 0 <= i < |bs|
    requires BufOk(nb, nr, logical, pinned)
    requires bs[i].refcnt == 0 || (nb.dev == bs[i].dev && nb.blockno == bs[i].blockno && (bs[i].valid ==> nb.valid))
    ensures Coherent(bs[i := nb], refs[i := nr], image, logical, pinned)
  {
    var cs := bs[i := nb];
    assert BufOk(bs[i], refs[i], logical, pinned);
    forall b | b in pinned ensures HasPin(cs, b) {
      assert HasPin(bs, b);
      var j :| PinnedAt(bs, j, b);
      assert PinnedAt(cs, j, b);
    }
  }

  /** Changing the logical contents of one block, whose only buffer is locked. */
  lemma RewriteCoherent(bs: seq<Buf>, refs: seq<int>, image: Image, logical: Image, pinned: set<int>,
                        i: int, newImage: Image)
    requires Coherent(bs, refs, image, logical, pinned) && Unique(bs)
    requires 0 <= i < |bs| && bs[i].dev == ROOTDEV && bs[i].locked && bs[i].blockno < |image|
    requires newImage == image[bs[i].blockno := bs[i].data] || (bs[i].blockno in pinned && newImage == image)
    ensures Coherent(bs, refs, newImage, logical[bs[i].blockno := bs[i].data], pinned)
  {
    var l := logical[bs[i].blockno := bs[i].data];
    forall b | 0 <= b < |image| && b !in pinned ensures InPlace(newImage, l, b) {
      assert InPlace(image, logical, b);
    }
    forall j | 0 <= j < |bs| ensures BufOk(bs[j], refs[j], l, pinned) {
      assert BufOk(bs[j], refs[j], logical, pinned);
      if bs[j].dev == ROOTDEV && bs[j].blockno == bs[i].blockno {
        UniqueCached(bs, i, j);
      }
    }
  }

  /** Pinning (log_write) or unpinning (install_trans) the block of buffer i. */
  lemma PinCoherent(bs: seq<Buf>, refs: seq<int>, image: Image, logical: Image, pinned: set<int>,
                    i: int, newPinned: set<int>)
    requires Coherent(bs, refs, image, logical, pinned) && Unique(bs)
    requires 0 <= i < |bs| && bs[i].dev == ROOTDEV && bs[i].valid && bs[i].refcnt > 0
    requires newPinned == pinned + {bs[i].blockno}
          || (newPinned == pinned - {bs[i].blockno} && bs[i].blockno < |image|
              && image[bs[i].blockno] == logical[bs[i].blockno])
    ensures |refs| == |bs| && refs[i] >= 0
    ensures Coherent(bs[i := bs[i].(refcnt := refs[i] + PinCount(bs[i], newPinned))], refs, image, logical, newPinned)
  {
    assert BufOk(bs[i], refs[i], logical, pinned);
    var cs := bs[i := bs[i].(refcnt := refs[i] + PinCount(bs[i], newPinned))];
    forall b | 0 <= b < |image| && b !in newPinned ensures InPlace(image, logical, b) {
      assert b !in pinned ==> InPlace(image, logical, b);
    }
    forall j | 0 <= j < |bs| ensures BufOk(cs[j], refs[j], logical, newPinned) {
      assert BufOk(bs[j], refs[j], logical, pinned);
      if bs[j].dev == ROOTDEV && bs[j].blockno == bs[i].blockno {
        UniqueCached(bs, i, j);
      }
    }
    forall b | b in newPinned ensures HasPin(cs, b) {
      if b == bs[i].blockno {
        assert PinnedAt(cs, i, b);
      } else {
        assert HasPin(bs, b);
        var j :| PinnedAt(bs, j, b);
        assert PinnedAt(cs, j, b);
      }
    }
  }

  // ----- log space reserved by the running operations -----

  lemma HasMember(ps: set<int>)
    requires ps != {}
    ensures exists p :: p in ps
  {
    assert (forall p :: p !in ps) ==> ps == {};
  }

  /** Log blocks the operations `ps` may still need, when `ops` gives the distinct
      blocks each has logged so far. */
  ghost function ReservedBy(ops: map<int, set<int>>, ps: set<int>): int
    requires ps <= ops.Keys
  {
    if ps == {} then 0
    else
      HasMember(ps);
      var p :| p in ps;
      MAXOPBLOCKS - |ops[p]| + ReservedBy(ops, ps - {p})
  }

  ghost function Reserved(ops: map<int, set<int>>): int {
    ReservedBy(ops, ops.Keys)
  }

  ghost predicate WithinBudget(ops: map<int, set<int>>) {
    forall p :: p in ops ==> |ops[p]| < MAXOPBLOCKS
  }

  /** Operations within their budget reserve at least nothing and at most
      MAXOPBLOCKS each. */
  lemma {:induction false} ReservedBound(ops: map<int, set<int>>, ps: set<int>)
    requires ps <= ops.Keys && WithinBudget(ops)
    ensures 0 <= ReservedBy(ops, ps) <= MAXOPBLOCKS * |ps|
    decreases ps
  {
    if ps != {} {
      HasMember(ps);
      var p :| p in ps && ReservedBy(ops, ps) == MAXOPBLOCKS - |ops[p]| + ReservedBy(ops, ps - {p});
      ReservedBound(ops, ps - {p});
    }
  }

  ghost predicate Listed(bs: set<int>, lh: seq<int>) {
    forall b :: b in bs ==> b in lh
  }

  lemma {:induction false} ReservedSplit(ops: map<int, set<int>>, ps: set<int>, q: int)
    requires ps <= ops.Keys && q in ps
    ensures ReservedBy(ops, ps) == MAXOPBLOCKS - |ops[q]| + ReservedBy(ops, ps - {q})
    decreases ps
  {
    HasMember(ps);
    var p :| p in ps && ReservedBy(ops, ps) == MAXOPBLOCKS - |ops[p]| + ReservedBy(ops, ps - {p});
    if p != q {
      ReservedSplit(ops, ps - {p}, q);
      ReservedSplit(ops, ps - {q}, p);
      assert ps - {p} - {q} == ps - {q} - {p};
    }
  }

  lemma {:induction false} ReservedFrame(ops: map<int, set<int>>, ops': map<int, set<int>>, ps: set<int>)
    requires ps <= ops.Keys && ps <= ops'.Keys && forall p :: p in ps ==> ops[p] == ops'[p]
    ensures ReservedBy(ops, ps) == ReservedBy(ops', ps)
    decreases ps
  {
    if ps != {} {
      HasMember(ps);
      var p :| p in ps && ReservedBy(ops, ps) == MAXOPBLOCKS - |ops[p]| + ReservedBy(ops, ps - {p});
      ReservedFrame(ops, ops', ps - {p});
      ReservedSplit(ops', ps, p);
    }
  }

  /** The effect on the reservation of replacing or adding one operation. */
  lemma ReservedUpdate(ops: map<int, set<int>>, q: int, bs: set<int>)
    ensures Reserved(ops[q := bs]) == MAXOPBLOCKS - |bs| + ReservedBy(ops, ops.Keys - {q})
    ensures q in ops ==> Reserved(ops) == MAXOPBLOCKS - |ops[q]| + ReservedBy(ops, ops.Keys - {q})
    ensures Reserved(ops - {q}) == ReservedBy(ops, ops.Keys - {q})
  {
    var ops' := ops[q := bs];
    ReservedSplit(ops', ops'.Keys, q);
    assert ops'.Keys - {q} == ops.Keys - {q} == (ops - {q}).Keys;
    ReservedFrame(ops, ops', ops.Keys - {q});
    ReservedFrame(ops, ops - {q}, ops.Keys - {q});
    if q in ops {
      ReservedSplit(ops, ops.Keys, q);
    }
  }

  /** Logging a block costs the operation `p` one unit of its reservation, unless it
      has logged the block before; and while `p` stays below its budget there is
      room, with a block to spare. */
  lemma Absorb(ops: map<int, set<int>>, p: int, b: int, lh: seq<int>)
    requires WithinBudget(ops) && p in ops && |ops[p] + {b}| < MAXOPBLOCKS
    requires |lh| + Reserved(ops) <= LOGBLOCKS && Listed(ops[p], lh)
    ensures var ops' := ops[p := ops[p] + {b}];
            && WithinBudget(ops') && |ops'| == |ops| >= 1
            && |lh| + Reserved(ops') + (if b in lh then 0 else 1) <= LOGBLOCKS
            && |lh| + (if b in lh then 0 else 1) < LOGBLOCKS
  {
    ReservedUpdate(ops, p, ops[p] + {b});
    ReservedBound(ops, ops.Keys - {p});
    assert b in ops[p] ==> ops[p] + {b} == ops[p] && b in lh;
    assert ops[p := ops[p] + {b}].Keys == ops.Keys;
    assert |ops| == |ops.Keys| && |ops[p := ops[p] + {b}]| == |ops.Keys|;
  }

  /** Log space: what is logged and what running operations may still log fits. */
  ghost predicate Admitted(ops: map<int, set<int>>, outstanding: int, lh: seq<int>, committing: bool) {
    && WithinBudget(ops)
    && outstanding == |ops|
    && |lh| + Reserved(ops) <= LOGBLOCKS && |lh| < LOGBLOCKS
    && (forall p {:trigger ops[p]} :: p in ops ==> Listed(ops[p], lh))
    && (committing ==> ops.Keys == {})
  }

  /** begin_op(): the test leaves room for another operation. */
  lemma AdmitBegin(ops: map<int, set<int>>, outstanding: int, lh: seq<int>, p: int)
    requires Admitted(ops, outstanding, lh, false) && p !in ops
    requires |lh| + (outstanding + 1) * MAXOPBLOCKS <= LOGBLOCKS
    ensures Admitted(ops[p := {}], outstanding + 1, lh, false)
  {
    ReservedUpdate(ops, p, {});
    ReservedBound(ops, ops.Keys);
    assert ops.Keys - {p} == ops.Keys;
    assert ops[p := {}].Keys == ops.Keys + {p};
  }

  /** log_write(): the operation's reservation covers the block. */
  lemma AdmitLog(ops: map<int, set<int>>, outstanding: int, lh: seq<int>, committing: bool, p: int, b: int)
    requires Admitted(ops, outstanding, lh, committing) && p in ops && |ops[p] + {b}| < MAXOPBLOCKS
    ensures Admitted(ops[p := ops[p] + {b}], outstanding, if b in lh then lh else lh + [b], committing)
    ensures !committing && outstanding >= 1
  {
    Absorb(ops, p, b, lh);
    var lh' := if b in lh then lh else lh + [b];
    forall q | q in ops ensures Listed(ops[p := ops[p] + {b}][q], lh') {
      assert Listed(ops[q], lh);
    }
  }

  /** end_op(): the operation's reservation is given back. */
  lemma AdmitEnd(ops: map<int, set<int>>, outstanding: int, lh: seq<int>, p: int)
    requires Admitted(ops, outstanding, lh, false) && p in ops
    ensures Admitted(ops - {p}, outstanding - 1, lh, false)
    ensures outstanding == 1 <==> (ops - {p}).Keys == {}
  {
    ReservedUpdate(ops, p, {});
    assert (ops - {p}).Keys == ops.Keys - {p};
    assert |ops[p]| < MAXOPBLOCKS;
  }

  /** What bread() leaves in the buffer is the logical contents of the block. */
  lemma BreadOk(bs: seq<Buf>, refs: seq<int>, image: Image, logical: Image, pinned: set<int>, i: int, b: nat,
                nb: Buf)
    requires Coherent(bs, refs, image, logical, pinned) && Unique(bs) && HeldCounted(bs) && 0 <= i < |bs|
    requires b < |image|
    requires forall j :: 0 <= j < |bs| && Cached(bs, j, ROOTDEV, b) ==> !bs[j].locked
    requires Cached(bs, i, ROOTDEV, b) ==>
      nb == Buf(true, ROOTDEV, b, bs[i].refcnt + 1, true, if bs[i].valid then bs[i].data else image[b])
    requires !Cached(bs, i, ROOTDEV, b) ==>
      && (forall j :: 0 <= j < |bs| ==> !Cached(bs, j, ROOTDEV, b))
      && bs[i].refcnt == 0 && nb == Buf(true, ROOTDEV, b, 1, true, image[b])
    ensures nb == Buf(true, ROOTDEV, b, bs[i].refcnt + 1, true, logical[b])
    ensures BufOk(nb, refs[i] + 1, logical, pinned)
  {
    assert BufOk(bs[i], refs[i], logical, pinned);
    if b in pinned {
      assert HasPin(bs, b);
      var j :| PinnedAt(bs, j, b);
      assert Cached(bs, j, ROOTDEV, b);
      UniqueCached(bs, i, j);
    } else {
      assert InPlace(image, logical, b);
    }
  }

  ghost predicate Logged(lh: seq<int>, b: int) {
    exists i :: 0 <= i < |lh| && lh[i] == b
  }

  ghost predicate PinsListed(pinned: set<int>, lh: seq<int>) {
    forall b {:trigger Logged(lh, b)} :: b in pinned ==> Logged(lh, b)
  }

  ghost predicate AllPinned(pinned: set<int>, lh: seq<int>) {
    forall i :: 0 <= i < |lh| ==> lh[i] in pinned
  }

  /** Logging one more block keeps the list and the pins in step. */
  lemma PinsGrow(pinned: set<int>, lh: seq<int>, lh': seq<int>, b: int)
    requires PinsListed(pinned, lh) && AllPinned(pinned, lh)
    requires lh' == if b in lh then lh else lh + [b]
    ensures PinsListed(pinned + {b}, lh') && AllPinned(pinned + {b}, lh')
    ensures b in pinned <==> b in lh
  {
    assert b in pinned ==> Logged(lh, b);
    forall c | c in pinned + {b} ensures Logged(lh', c) {
      if c in pinned {
        assert Logged(lh, c);
        var i :| 0 <= i < |lh| && lh[i] == c;
        assert lh'[i] == c;
      } else {
        assert b !in lh && lh'[|lh|] == b;
      }
    }
  }

  lemma PinsShrink(pinned: set<int>, pinned': set<int>, lh: seq<int>)
    requires PinsListed(pinned, lh) && pinned' <= pinned
    ensures PinsListed(pinned', lh)
  {
    assert forall b :: b in pinned' ==> Logged(lh, b);
  }

  /** A pinned block is always found in the cache. */
  lemma BreadCached(bs: seq<Buf>, refs: seq<int>, image: Image, logical: Image, pinned: set<int>, i: int,
                    b: nat)
    requires Coherent(bs, refs, image, logical, pinned)
    requires 0 <= i <= |bs|
    requires i == |bs| || !Cached(bs, i, ROOTDEV, b) ==> forall j :: 0 <= j < |bs| ==>
               !Cached(bs, j, ROOTDEV, b)
    ensures b in pinned ==> i < |bs| && Cached(bs, i, ROOTDEV, b) && bs[i].refcnt > 0
  {
    if b in pinned {
      assert HasPin(bs, b);
      var j :| PinnedAt(bs, j, b);
      assert Cached(bs, j, ROOTDEV, b);
      assert BufOk(bs[i], refs[i], logical, pinned);
    }
  }

  /** Without pins and references a buffer is unused. */
  lemma AllUnused(bs: seq<Buf>, refs: seq<int>, image: Image, logical: Image, pinned: set<int>, j: int)
    requires Coherent(bs, refs, image, logical, pinned) && 0 <= j < |bs| && pinned == {} && refs[j] == 0
    ensures bs[j].refcnt == 0
  {
    assert BufOk(bs[j], refs[j], logical, pinned);
  }

  /** The contents of the listed blocks. */
  ghost function Contents(d: Image, lh: seq<int>): (r: seq<Block>)
    requires forall i :: 0 <= i < |lh| ==> 0 <= lh[i] < |d|
    ensures |r| == |lh|
  {
    seq(|lh|, i requires 0 <= i < |lh| => d[lh[i]])
  }

  /** From `trace0` and `image0`, exactly the writes `ws` were performed. */
  ghost predicate Wrote(trace0: seq<Write>, image0: Image, ws: seq<Write>, trace: seq<Write>, image: Image) {
    InRange(|image0|, ws) && trace == trace0 + ws && image == Apply(image0, ws)
  }

  lemma WroteNext(trace0: seq<Write>, image0: Image, a: seq<Write>, w: Write, trace: seq<Write>, image: Image)
    requires InRange(|image0|, a) && w.bno < |image0|
    requires trace == (trace0 + a) + [w] && image == Apply(image0, a)[w.bno := w.data]
    ensures Wrote(trace0, image0, a + [w], trace, image)
  {
    ApplyOne(image0, a, w);
    assert (trace0 + a) + [w] == trace0 + (a + [w]);
  }

  lemma LogWritesSnoc(start: nat, data: seq<Block>, k: int)
    requires 0 <= k < |data|
    ensures LogWrites(start, data[..k + 1]) == LogWrites(start, data[..k]) + [Write(start + 1 + k, data[k])]
  {
  }

  lemma LogWritesHeader(d: Image, start: nat, data: seq<Block>)
    requires start + LOGBLOCKS < |d| && |data| <= LOGBLOCKS
    ensures InRange(|d|, LogWrites(start, data)) && Apply(d, LogWrites(start, data))[start] == d[start]
  {
    LogWritesHidden(d, start, data, |data|);
    assert LogWrites(start, data)[..|data|] == LogWrites(start, data);
  }

  lemma InstallWritesSnoc(lh: seq<int>, data: seq<Block>, k: int)
    requires 0 <= k < |data| == |lh| && Nats(lh)
    ensures InstallWrites(lh[..k + 1], data[..k + 1]) == InstallWrites(lh[..k], data[..k]) + [Write(lh[k], data[k])]
  {
  }

  lemma PinsNext(lh: seq<int>, pinned: set<int>, k: int)
    requires Distinct(lh) && 0 <= k < |lh|
    requires forall i :: 0 <= i < |lh| ==> (lh[i] in pinned <==> k <= i)
    ensures forall i :: 0 <= i < |lh| ==> (lh[i] in pinned - {lh[k]} <==> k + 1 <= i)
  {
  }

  lemma InstallKeepsLogBlock(d: Image, start: nat, lh: seq<int>, data: seq<Block>, b: nat)
    requires GoodDests(|d|, start, lh) && |lh| == |data| && b < |d| && InLog(start, b)
    ensures InRange(|d|, InstallWrites(lh, data)) && Apply(d, InstallWrites(lh, data))[b] == d[b]
  {
    ApplyFrame(d, InstallWrites(lh, data), b);
  }

  /** Log blocks are never pinned, so cache and disk agree on them. */
  lemma LogInPlace(bs: seq<Buf>, refs: seq<int>, image: Image, logical: Image, pinned: set<int>, start: nat,
                   lh: seq<int>, b: nat)
    requires Coherent(bs, refs, image, logical, pinned) && b < |image| && InLog(start, b)
    requires GoodDests(|image|, start, lh) && PinsListed(pinned, lh)
    ensures b !in pinned && image[b] == logical[b]
  {
    assert b in pinned ==> Logged(lh, b);
    assert InPlace(image, logical, b);
  }

  lemma NoPins(pinned: set<int>, lh: seq<int>)
    requires PinsListed(pinned, lh)
    requires forall i :: 0 <= i < |lh| ==> lh[i] !in pinned
    ensures pinned == {}
  {
    forall b ensures b !in pinned {
      assert b in pinned ==> Logged(lh, b);
    }
  }

  /** Without references no buffer is locked. */
  lemma Unheld(bs: seq<Buf>, refs: seq<int>, image: Image, logical: Image, pinned: set<int>)
    requires Coherent(bs, refs, image, logical, pinned)
    requires forall j :: 0 <= j < |refs| ==> refs[j] == 0
    ensures forall j :: 0 <= j < |bs| ==> !bs[j].locked
  {
    forall j | 0 <= j < |bs| ensures !bs[j].locked {
      assert BufOk(bs[j], refs[j], logical, pinned);
    }
  }

  lemma SameContents(d: Image, e: Image, start: nat, lh: seq<int>)
    requires SameHome(d, e, start) && GoodDests(|d|, start, lh)
    ensures Contents(d, lh) == Contents(e, lh)
  {
  }

  lemma AllInPlace(bs: seq<Buf>, refs: seq<int>, image: Image, logical: Image, pinned: set<int>)
    requires Coherent(bs, refs, image, logical, pinned) && pinned == {}
    ensures image == logical
  {
    forall b | 0 <= b < |image| ensures image[b] == logical[b] {
      assert InPlace(image, logical, b);
    }
  }

  /** From `image0` the commit of `lh` and `data` was published: its writes were
      performed, and the log on disk now says exactly that. */
  ghost predicate IsPublished(trace0: seq<Write>, image0: Image, start: nat, lh: seq<int>, data: seq<Block>,
                              trace: seq<Write>, image: Image)
    requires start < |image0| && image0[start].Full() && |lh| == |data| <= LOGBLOCKS
  {
    && Wrote(trace0, image0, PublishWrites(image0[start], start, lh, data), trace, image)
    && WellFormed(image, start) && image[start] == HeaderBlock(image0[start], lh)
    && LogData(image, start) == data
  }

  /** write_log() then write_head() perform the writes that publish a commit. */
  lemma PublishedWrites(trace0: seq<Write>, image0: Image, start: nat, lh: seq<int>, data: seq<Block>,
                        trace: seq<Write>, image: Image)
    requires start + LOGBLOCKS < |image0| && image0[start].Full() && GoodDests(|image0|, start, lh)
    requires |lh| == |data|
    requires InRange(|image0|, LogWrites(start, data))
    requires trace == trace0 + LogWrites(start, data) + [Write(start, HeaderBlock(image0[start], lh))]
    requires image == Apply(image0, LogWrites(start, data))[start := HeaderBlock(image0[start], lh)]
    ensures IsPublished(trace0, image0, start, lh, data, trace, image)
  {
    WroteNext(trace0, image0, LogWrites(start, data), Write(start, HeaderBlock(image0[start], lh)), trace, image);
    Published(image0, start, lh, data);
    assert LogData(image, start) == data;
  }

  /** install_trans() then write_head() perform the writes that empty the log. */
  lemma EmptiedWrites(trace0: seq<Write>, image0: Image, start: nat, lh: seq<int>, data: seq<Block>,
                      trace: seq<Write>, image: Image)
    requires WellFormed(image0, start) && Dests(image0[start]) == lh && LogData(image0, start) == data
    requires InRange(|image0|, InstallWrites(lh, data))
    requires trace == trace0 + InstallWrites(lh, data) + [Write(start, HeaderBlock(image0[start], []))]
    requires image == Apply(image0, InstallWrites(lh, data))[start := HeaderBlock(image0[start], [])]
    ensures Wrote(trace0, image0, RecoveryWrites(image0, start), trace, image)
    ensures Clean(image, start) && SameHome(image, Durable(image0, start), start)
  {
    var ws := RecoveryWrites(image0, start);
    WroteNext(trace0, image0, InstallWrites(lh, data), Write(start, HeaderBlock(image0[start], [])), trace, image);
    RecoveryCrash(image0, start, |ws|);
    assert ws[..|ws|] == ws;
  }

  /** Publishing and emptying together are the writes of a commit. */
  lemma CommittedWrites(trace0: seq<Write>, image0: Image, start: nat, lh: seq<int>, data: seq<Block>,
                        trace1: seq<Write>, image1: Image, trace: seq<Write>, image: Image)
    requires start < |image0| && image0[start].Full() && |lh| == |data| <= LOGBLOCKS && Nats(lh)
    requires lh != []
    requires IsPublished(trace0, image0, start, lh, data, trace1, image1)
    requires Wrote(trace1, image1, RecoveryWrites(image1, start), trace, image)
    ensures Wrote(trace0, image0, CommitWrites(image0[start], start, lh, data), trace, image)
  {
    var pw, rw := PublishWrites(image0[start], start, lh, data), RecoveryWrites(image1, start);
    ApplyConcat(image0, pw, rw);
    assert CommitWrites(image0[start], start, lh, data) == pw + rw;
    assert (trace0 + pw) + rw == trace0 + (pw + rw);
  }

  /** Part way through install_trans() the rest of the log can still be read. */
  lemma InstallReady(bs: seq<Buf>, refs: seq<int>, image0: Image, image: Image, logical: Image, pinned: set<int>,
                     start: nat, lh: seq<int>, data: seq<Block>, k: nat, done: seq<Write>)
    requires Coherent(bs, refs, image, logical, pinned) && GoodDests(|image|, start, lh)
    requires PinsListed(pinned, lh)
    requires k < |lh| == |data| && |image0| == |image| > start + LOGBLOCKS
    requires data == image0[start + 1..start + 1 + |lh|]
    requires done == InstallWrites(lh[..k], data[..k])
    requires InRange(|image0|, done) && image == Apply(image0, done)
    ensures logical[start + k + 1] == data[k]
  {
    InstallKeepsLogBlock(image0, start, lh[..k], data[..k], start + k + 1);
    LogInPlace(bs, refs, image, logical, pinned, start, lh, start + k + 1);
  }

  // ----- NBUF equals LOGBLOCKS: when commit() finds a buffer -----

  /** The buffers that hold the first k listed blocks. */
  lemma {:induction false} PinnedBuffers(bs: seq<Buf>, lh: seq<int>, k: nat) returns (s: set<int>)
    requires k <= |lh| && Distinct(lh)
    requires forall i :: 0 <= i < k ==> HasPin(bs, lh[i])
    ensures |s| == k
    ensures forall i :: i in s ==> 0 <= i < |bs| && exists j :: 0 <= j < k && PinnedAt(bs, i, lh[j])
  {
    if k == 0 {
      s := {};
    } else {
      var t := PinnedBuffers(bs, lh, k - 1);
      assert HasPin(bs, lh[k - 1]);
      var i :| PinnedAt(bs, i, lh[k - 1]);
      assert i !in t;
      s := t + {i};
    }
  }

  lemma {:induction false} SubsetSize(s: set<int>, n: nat)
    requires forall i :: i in s ==> 0 <= i < n
    ensures |s| <= n
    ensures |s| == n ==> forall i :: 0 <= i < n ==> i in s
  {
    if n == 0 {
      assert (forall i :: i !in s) ==> s == {};
    } else {
      var t := s - {n - 1};
      SubsetSize(t, n - 1);
      if n - 1 in s {
        assert |t| == |s| - 1;
      } else {
        assert t == s;
      }
    }
  }

  /** The blocks of the first k buffers, when each carries a pin. */
  lemma {:induction false} PinnedBlocks(bs: seq<Buf>, k: nat) returns (s: set<int>)
    requires k <= |bs| && Unique(bs) && forall i :: 0 <= i < k ==> bs[i].dev == ROOTDEV
    ensures |s| == k
    ensures forall b :: b in s <==> exists i :: 0 <= i < k && bs[i].blockno == b
  {
    if k == 0 {
      s := {};
    } else {
      var t := PinnedBlocks(bs, k - 1);
      forall i | 0 <= i < k - 1 ensures bs[i].blockno != bs[k - 1].blockno {
        assert Apart(bs, i, k - 1);
      }
      s := t + {bs[k - 1].blockno};
    }
  }

  lemma {:induction false} ElementsSize(lh: seq<int>) returns (s: set<int>)
    ensures |s| <= |lh| && forall b :: b in s <==> Logged(lh, b)
  {
    if lh == [] {
      s := {};
    } else {
      var rest := lh[..|lh| - 1];
      var t := ElementsSize(rest);
      s := t + {lh[|lh| - 1]};
      forall b ensures b in s <==> Logged(lh, b) {
        if b in t {
          var i :| 0 <= i < |rest| && rest[i] == b;
          assert lh[i] == b;
        }
        if Logged(lh, b) {
          var i :| 0 <= i < |lh| && lh[i] == b;
          assert i < |rest| ==> rest[i] == b;
        }
      }
    }
  }

  lemma SetSize(s: set<int>, t: set<int>)
    requires forall b :: b in s ==> b in t
    ensures |s| <= |t|
  {
    assert (forall b :: b in s ==> b in t) ==> s <= t;
    assert t == s + (t - s);
  }

  /** With nobody holding a buffer, commit() finds one for the log exactly when
      fewer than NBUF blocks are logged.  LOGBLOCKS equals NBUF, so a log filled to
      the brim would meet panic("bget: no buffers"). */
  lemma CommitFindsBuffer(bs: seq<Buf>, refs: seq<int>, image: Image, logical: Image, pinned: set<int>,
                          lh: seq<int>)
    requires Coherent(bs, refs, image, logical, pinned) && Unique(bs) && |bs| == NBUF && Distinct(lh)
    requires PinsListed(pinned, lh) && AllPinned(pinned, lh)
    requires forall i :: 0 <= i < |refs| ==> refs[i] == 0
    ensures (exists i :: 0 <= i < NBUF && bs[i].refcnt == 0) <==> |lh| < NBUF
  {
    if |lh| >= NBUF {
      forall i | 0 <= i < NBUF ensures HasPin(bs, lh[i]) {
      }
      var s := PinnedBuffers(bs, lh, NBUF);
      SubsetSize(s, NBUF);
      forall i | 0 <= i < NBUF ensures bs[i].refcnt > 0 {
        assert i in s;
        var j :| 0 <= j < NBUF && PinnedAt(bs, i, lh[j]);
        assert BufOk(bs[i], refs[i], logical, pinned);
      }
    } else if forall i :: 0 <= i < NBUF ==> bs[i].refcnt > 0 {
      forall i | 0 <= i < NBUF ensures bs[i].dev == ROOTDEV && bs[i].blockno in pinned {
        assert BufOk(bs[i], refs[i], logical, pinned);
      }
      var s := PinnedBlocks(bs, NBUF);
      var t := ElementsSize(lh);
      forall b | b in s ensures b in t {
        assert Logged(lh, b);
      }
      SetSize(s, t);
    }
  }

  // ----- readers while a commit runs -----

  /** A step of some process that only reads: bread() of a block, or brelse() of a buffer
      that is held. */
  datatype ReaderStep = Get(b: nat) | Put(i: int)

  /** What readers do at point k of a commit. */
  function StepsAt(env: seq<seq<ReaderStep>>, k: int): seq<ReaderStep> {
    if 0 <= k < |env| then env[k] else []
  }

  /** A buffer that is held shows the logical contents of a home block. */
  ghost predicate HeldOk(b: Buf, logical: Image, start: nat) {
    b.locked ==> Current(b, logical) && !InLog(start, b.blockno)
  }

  ghost predicate ReadersOk(bs: seq<Buf>, logical: Image, start: nat) {
    forall i {:trigger HeldOk(bs[i], logical, start)} :: 0 <= i < |bs| ==> HeldOk(bs[i], logical, start)
  }

  ghost predicate NotHeld(bs: seq<Buf>, b: int) {
    forall i {:trigger bs[i].locked} :: 0 <= i < |bs| && bs[i].locked ==> bs[i].blockno != b
  }

  /** bread() of block b will find a buffer: u is unused or caches b. */
  ghost predicate Ready(bs: seq<Buf>, u: int, b: nat) {
    0 <= u < |bs| && (bs[u].refcnt == 0 || Cached(bs, u, ROOTDEV, b))
  }

  /** Every held buffer was held before, and is the same. */
  ghost predicate HeldSame(bs: seq<Buf>, bs': seq<Buf>) {
    |bs'| == |bs| && forall j {:trigger bs'[j].locked} :: 0 <= j < |bs| && bs'[j].locked ==> bs'[j] == bs[j]
  }

  lemma ReadersStay(bs: seq<Buf>, bs': seq<Buf>, logical: Image, logical': Image, start: nat)
    requires ReadersOk(bs, logical, start) && HeldSame(bs, bs') && SameHome(logical, logical', start)
    ensures ReadersOk(bs', logical', start)
  {
    forall i | 0 <= i < |bs'| ensures HeldOk(bs'[i], logical', start) {
      if bs'[i].locked {
        assert HeldOk(bs[i], logical, start);
      }
    }
  }

  /** A reader has the block it wanted. */
  lemma ReadersGet(bs: seq<Buf>, bs': seq<Buf>, i: int, logical: Image, start: nat)
    requires ReadersOk(bs, logical, start) && 0 <= i < |bs| == |bs'| && bs' == bs[i := bs'[i]]
    requires Current(bs'[i], logical) && !InLog(start, bs'[i].blockno)
    ensures ReadersOk(bs', logical, start)
  {
    forall j | 0 <= j < |bs'| ensures HeldOk(bs'[j], logical, start) {
      assert HeldOk(bs[j], logical, start);
    }
  }

  lemma LogNotHeld(bs: seq<Buf>, logical: Image, start: nat, b: int)
    requires ReadersOk(bs, logical, start) && InLog(start, b)
    ensures NotHeld(bs, b)
  {
    forall i | 0 <= i < |bs| && bs[i].locked ensures bs[i].blockno != b {
      assert HeldOk(bs[i], logical, start);
    }
  }

  /** Nobody holds a logged block. */
  ghost predicate Quiet(bs: seq<Buf>, lh: seq<int>) {
    forall i {:trigger bs[i].locked} :: 0 <= i < |bs| && bs[i].locked ==> !Logged(lh, bs[i].blockno)
  }

  lemma QuietStays(bs: seq<Buf>, bs': seq<Buf>, lh: seq<int>)
    requires Quiet(bs, lh) && HeldSame(bs, bs')
    ensures Quiet(bs', lh)
  {
  }

  /** The first `tail` blocks of the log have gone home, and nothing else was written. */
  ghost predicate InstalledOn(start: nat, lh: seq<int>, tail: int, recovering: bool, trace0: seq<Write>,
                              image0: Image, logical0: Image, data: seq<Block>, done: seq<Write>,
                              trace: seq<Write>, image: Image, logical: Image) {
    && 0 <= tail <= |lh| == |data| && |image0| > start + LOGBLOCKS && GoodDests(|image0|, start, lh)
    && data == image0[start + 1..start + 1 + |lh|] && done == InstallWrites(lh[..tail], data[..tail])
    && Wrote(trace0, image0, done, trace, image)
    && (!recovering ==>
         |logical0| == |image0| && SameHome(logical, logical0, start) && Contents(logical0, lh) == data)
  }

  // ----- the log itself -----

  /** The logged data are what their home blocks hold already, unless recovering. */
  lemma InstallSame(lh: seq<int>, data: seq<Block>, tail: int, recovering: bool, logical: Image, logical0: Image,
                    start: nat)
    requires 0 <= tail < |lh| == |data| && GoodDests(|logical|, start, lh)
    requires !recovering ==> SameHome(logical, logical0, start) && Contents(logical0, lh) == data
    ensures !recovering ==> logical[lh[tail]] == data[tail]
  {
  }

  /** One more block has gone home. */
  lemma InstallNext(start: nat, lh: seq<int>, tail: int, recovering: bool, trace0: seq<Write>, image0: Image,
                    logical0: Image, data: seq<Block>, done: seq<Write>, trace1: seq<Write>, image1: Image,
                    trace: seq<Write>, image: Image, logical: Image)
    requires InstalledOn(start, lh, tail, recovering, trace0, image0, logical0, data, done, trace1, image1, logical)
    requires tail < |lh| && lh[tail] < |image1| && image == image1[lh[tail] := data[tail]]
    requires trace == trace1 + [Write(lh[tail], data[tail])]
    ensures InstalledOn(start, lh, tail + 1, recovering, trace0, image0, logical0, data,
                        done + [Write(lh[tail], data[tail])], trace, image, logical)
  {
    WroteNext(trace0, image0, done, Write(lh[tail], data[tail]), trace, image);
    InstallWritesSnoc(lh, data, tail);
  }

  lemma InstallHeld(bs: seq<Buf>, refs: seq<int>, image: Image, logical: Image, pinned: set<int>, recovering: bool)
    requires Coherent(bs, refs, image, logical, pinned)
    requires recovering ==> forall j :: 0 <= j < |refs| ==> refs[j] == 0
    ensures recovering ==> forall j :: 0 <= j < |bs| ==> !bs[j].locked
  {
    if recovering {
      Unheld(bs, refs, image, logical, pinned);
    }
  }

  /** Installing changes nothing that a reader can hold. */
  lemma ReadersInstalled(bs: seq<Buf>, bs': seq<Buf>, logical: Image, logical': Image, start: nat, recovering: bool)
    requires ReadersOk(bs, logical, start) && HeldSame(bs, bs')
    requires if recovering then forall j :: 0 <= j < |bs| ==> !bs[j].locked else logical' == logical
    ensures ReadersOk(bs', logical', start)
  {
    forall i | 0 <= i < |bs'| ensures HeldOk(bs'[i], logical', start) {
      if bs'[i].locked {
        assert HeldOk(bs[i], logical, start) && bs'[i] == bs[i];
      }
    }
  }

  lemma OnlyHolder(bs: seq<Buf>, bs': seq<Buf>, logical: Image, start: nat, i: int, b: int)
    requires ReadersOk(bs, logical, start) && Unique(bs) && HeldSame(bs, bs') && 0 <= i < |bs|
    requires bs[i].locked && bs[i].blockno == b && !bs'[i].locked
    ensures NotHeld(bs', b)
  {
    forall j | 0 <= j < |bs'| && bs'[j].locked ensures bs'[j].blockno != b {
      assert bs'[j] == bs[j] && HeldOk(bs[j], logical, start) && HeldOk(bs[i], logical, start);
      if bs[j].blockno == b {
        UniqueCached(bs, i, j);
      }
    }
  }

  lemma NoReaders(bs: seq<Buf>, refs: seq<int>, image: Image, logical: Image, pinned: set<int>, start: nat,
                  lh: seq<int>)
    requires Coherent(bs, refs, image, logical, pinned) && forall j :: 0 <= j < |refs| ==> refs[j] == 0
    ensures ReadersOk(bs, logical, start) && Quiet(bs, lh)
  {
    Unheld(bs, refs, image, logical, pinned);
  }

  class TxnLog {
    const bc: BCache
    const disk: Disk
    const start: nat
    const block: array<int>

    var n: int
    var outstanding: int
    var committing: bool
    /** The entries of `block` in use. */
    ghost var lh: seq<int>
    ghost var logical: Image
    /** References to each buffer held by clients of the cache. */
    ghost var refs: seq<int>
    /** Logged blocks that still carry their pin. */
    ghost var pinned: set<int>
    /** The running operations and the distinct blocks each has logged. */
    ghost var ops: map<int, set<int>>

    /** The cache and the disk represent `logical`. */
    ghost predicate Storage()
      reads this, disk, bc, bc.buf, bc.next, bc.prev
    {
      && bc.disk == disk && bc.Valid()
      && start + LOGBLOCKS < |disk.image|
      && Coherent(bc.bufs, refs, disk.image, logical, pinned)
    }

    /** The log's block list, and the pins that it accounts for. */
    ghost predicate List()
      reads this, block, disk
    {
      && block.Length == LOGBLOCKS && 0 <= n <= LOGBLOCKS && lh == block[..n]
      && GoodDests(|disk.image|, start, lh)
      && PinsListed(pinned, lh)
    }

    /** Log space: what is logged and what running operations may still log fits. */
    ghost predicate Admission()
      reads this
    {
      Admitted(ops, outstanding, lh, committing)
    }

    /** What holds whenever log.lock is free and no commit is under way: the log on
        disk is clean and exactly the logged blocks are pinned. */
    ghost predicate Valid()
      reads this, block, disk, bc, bc.buf, bc.next, bc.prev
    {
      && Storage() && List() && Admission()
      && Clean(disk.image, start)
      && AllPinned(pinned, lh)
    }

    /** initlog() up to the recovery, over a cache that binit() has just set up. */
    constructor (c: BCache, logstart: nat)
      requires c.Valid() && logstart + LOGBLOCKS < |c.disk.image|
      requires c.bufs == seq(NBUF, _ => Buf(false, 0, 0, 0, false, ZeroBlock()))
      ensures Storage() && List() && Admission() && bc == c && disk == c.disk && start == logstart
      ensures n == 0 && pinned == {} && ops == map[] && !committing && refs == seq(NBUF, _ => 0)
      ensures logical == disk.image
    {
      bc, disk, start := c, c.disk, logstart;
      block := new int[LOGBLOCKS](_ => 0);
      n, outstanding, committing := 0, 0, false;
      lh, logical, refs, pinned, ops := [], c.disk.image, seq(NBUF, _ => 0), {}, map[];
    }

    /** bread(): the buffer is locked and holds the last contents logged for the
        block, however stale the disk is.  NBUF is panic("bget: no buffers"). */
    method Bread(b: nat) returns (i: int)
      requires Storage() && b < |disk.image|
      requires forall j :: 0 <= j < NBUF && Cached(bc.bufs, j, ROOTDEV, b) ==> !bc.bufs[j].locked
      modifies bc.buf, bc`bufs, this`refs
      ensures Storage() && 0 <= i <= NBUF
      ensures i == NBUF ==> bc.bufs == old(bc.bufs) && refs == old(refs) && b !in pinned
      ensures i == NBUF ==> forall j :: 0 <= j < NBUF ==> bc.bufs[j].refcnt > 0 && !Cached(bc.bufs, j, ROOTDEV, b)
      ensures i < NBUF ==>
        && refs == old(refs)[i := old(refs)[i] + 1]
        && !old(bc.bufs[i]).locked
        && bc.bufs == old(bc.bufs)[i := bc.bufs[i]]
        && bc.bufs[i] == Buf(true, ROOTDEV, b, old(bc.bufs[i]).refcnt + 1, true, logical[b])
        && (b in pinned ==> old(bc.bufs[i]).refcnt > 0)
    {
      ghost var bs := bc.bufs;
      i := bc.Bread(ROOTDEV, b);
      BreadCached(bs, refs, disk.image, logical, pinned, i, b);
      if i != NBUF {
        ghost var nb := bc.bufs[i];
        assert bc.bufs == bs[i := nb];
        BreadOk(bs, refs, disk.image, logical, pinned, i, b, nb);
        ReplaceCoherent(bs, refs, disk.image, logical, pinned, i, nb, refs[i] + 1);
        refs := refs[i := refs[i] + 1];
      }
    }

    /** brelse() by a client whose edits, if any, are logged. */
    method Brelse(i: int)
      requires Storage() && 0 <= i < NBUF && bc.bufs[i].locked && Current(bc.bufs[i], logical)
      modifies bc, bc.buf, bc.next, bc.prev, this`refs
      ensures Storage()
      ensures bc.bufs == old(bc.bufs)[i := old(bc.bufs[i]).(locked := false, refcnt := old(bc.bufs[i]).refcnt - 1)]
      ensures refs == old(refs)[i := old(refs)[i] - 1]
    {
      ghost var bs := bc.bufs;
      assert BufOk(bs[i], refs[i], logical, pinned);
      bc.Brelse(i);
      ReplaceCoherent(bs, refs, disk.image, logical, pinned, i, bc.bufs[i], refs[i] - 1);
      refs := refs[i := refs[i] - 1];
    }

    /** A client edits the buffer it holds. */
    method Edit(i: int, data: Block)
      requires Storage() && 0 <= i < NBUF && bc.bufs[i].locked
      modifies bc.buf, bc`bufs
      ensures Storage()
      ensures bc.bufs == old(bc.bufs)[i := old(bc.bufs[i]).(data := data)]
    {
      ghost var bs := bc.bufs;
      assert BufOk(bs[i], refs[i], logical, pinned);
      bc.Update(i, bc.buf[i].(data := data));
      ReplaceCoherent(bs, refs, disk.image, logical, pinned, i, bc.bufs[i], refs[i]);
      assert refs[i := refs[i]] == refs;
    }

    /** bwrite() of a held buffer. */
    method Bwrite(i: int)
      requires Storage() && 0 <= i < NBUF && bc.bufs[i].locked && bc.bufs[i].dev == ROOTDEV
      requires bc.bufs[i].blockno < |disk.image|
      modifies disk, this`logical
      ensures Storage()
      ensures disk.image == old(disk.image)[bc.bufs[i].blockno := bc.bufs[i].data]
      ensures logical == old(logical)[bc.bufs[i].blockno := bc.bufs[i].data]
      ensures disk.trace == old(disk.trace) + [Write(bc.bufs[i].blockno, bc.bufs[i].data)]
    {
      ghost var image := disk.image;
      bc.Bwrite(i);
      RewriteCoherent(bc.bufs, refs, image, logical, pinned, i, disk.image);
      logical := logical[bc.buf[i].blockno := bc.buf[i].data];
    }

    /** bunpin() of a held buffer whose block is on the disk. */
    method Bunpin(i: int)
      requires Storage() && 0 <= i < NBUF && bc.bufs[i].locked && bc.bufs[i].dev == ROOTDEV
      requires bc.bufs[i].valid
      requires bc.bufs[i].blockno in pinned
      requires bc.bufs[i].blockno < |disk.image|
      requires disk.image[bc.bufs[i].blockno] == logical[bc.bufs[i].blockno]
      modifies bc.buf, bc`bufs, this`pinned
      ensures Storage()
      ensures pinned == old(pinned) - {bc.bufs[i].blockno}
      ensures bc.bufs == old(bc.bufs)[i := old(bc.bufs[i]).(refcnt := old(bc.bufs[i]).refcnt - 1)]
    {
      ghost var bs := bc.bufs;
      assert BufOk(bs[i], refs[i], logical, pinned);
      bc.Bunpin(i);
      PinCoherent(bs, refs, disk.image, logical, pinned, i, pinned - {bs[i].blockno});
      pinned := pinned - {bs[i].blockno};
    }

    // ----- operations -----

    /** begin_op() by `p`: admitted unless a commit is under way or the log might
        overflow, in which case the caller sleeps and tries again. */
    method BeginOp(p: int) returns (admitted: bool)
      requires Valid() && p !in ops
      modifies this`outstanding, this`ops
      ensures Valid()
      ensures admitted <==> !committing && n + (|old(ops)| + 1) * MAXOPBLOCKS <= LOGBLOCKS
      ensures ops == if admitted then old(ops)[p := {}] else old(ops)
    {
      if committing {
        return false;
      } else if n + (outstanding + 1) * MAXOPBLOCKS > LOGBLOCKS {
        return false;
      }
      AdmitBegin(ops, outstanding, lh, p);
      outstanding := outstanding + 1;
      ops := ops[p := {}];
      return true;
    }

    /** The position of a block in the log's block list, or n: log_write()'s search
        for absorption. */
    method FindLogged(b: int) returns (i: int)
      requires block.Length == LOGBLOCKS && 0 <= n <= LOGBLOCKS && lh == block[..n]
      ensures 0 <= i <= n
      ensures i < n ==> block[i] == b
      ensures i == n ==> b !in lh
    {
      i := 0;
      while i < n
        invariant 0 <= i <= n
        invariant forall j :: 0 <= j < i ==> block[j] != b
      {
        if block[i] == b {
          return;
        }
        i := i + 1;
      }
    }

    /** Stores a block number in the log's block list, once. */
    method Record(b: nat, ghost size: nat) returns (isNew: bool)
      requires block.Length == LOGBLOCKS && 0 <= n < LOGBLOCKS && lh == block[..n]
      requires GoodDests(size, start, lh)
      requires b < size && !InLog(start, b)
      modifies this`n, this`lh, block
      ensures 0 <= n <= LOGBLOCKS && lh == block[..n] && GoodDests(size, start, lh)
      ensures isNew == (b !in old(lh))
      ensures lh == if isNew then old(lh) + [b] else old(lh)
    {
      var k := FindLogged(b);
      isNew := k == n;
      block[k] := b;
      if isNew {
        n := n + 1;
        lh := lh + [b];
      }
      assert lh == block[..n];
    }

    /** The body of log_write(): record the block number, pin the buffer when new. */
    method Append(i: int)
      requires Storage() && List() && n < LOGBLOCKS && AllPinned(pinned, lh)
      requires 0 <= i < NBUF && bc.bufs[i].locked && bc.bufs[i].valid && bc.bufs[i].dev == ROOTDEV
      requires bc.bufs[i].blockno < |disk.image| && !InLog(start, bc.bufs[i].blockno)
      modifies this`n, this`lh, this`pinned, block, bc.buf, bc`bufs
      ensures Storage() && List() && AllPinned(pinned, lh)
      ensures var b := old(bc.bufs[i]).blockno;
        && lh == (if b in old(lh) then old(lh) else old(lh) + [b])
        && bc.bufs == old(bc.bufs)[i := old(bc.bufs[i]).(refcnt :=
             if b in old(lh) then old(bc.bufs[i]).refcnt else old(bc.bufs[i]).refcnt + 1)]
        && b in pinned
    {
      ghost var bs := bc.bufs;
      ghost var b: int := bs[i].blockno;
      ghost var pins := pinned + {b};
      ghost var nb := bs[i].(refcnt := if b in lh then bs[i].refcnt else bs[i].refcnt + 1);
      PinsGrow(pinned, lh, if b in lh then lh else lh + [b], b);
      assert BufOk(bs[i], refs[i], logical, pinned);
      assert nb.refcnt == refs[i] + PinCount(bs[i], pins);
      PinCoherent(bs, refs, disk.image, logical, pinned, i, pins);
      var isNew := Record(bc.buf[i].blockno, |disk.image|);
      if isNew {
        bc.Bpin(i);
      }
      assert bc.bufs == bs[i := nb];
      pinned := pins;
    }

    /** log_write()'s effect on the log, the pins and the logical blocks. */
    method Relog(i: int)
      requires Storage() && List() && n < LOGBLOCKS && AllPinned(pinned, lh)
      requires 0 <= i < NBUF && bc.bufs[i].locked && bc.bufs[i].valid && bc.bufs[i].dev == ROOTDEV
      requires bc.bufs[i].blockno < |disk.image| && !InLog(start, bc.bufs[i].blockno)
      modifies this`n, this`lh, this`logical, this`pinned, block, bc.buf, bc`bufs
      ensures Storage() && List() && AllPinned(pinned, lh)
      ensures var b := old(bc.bufs[i]).blockno;
        && b < |old(logical)| && logical == old(logical)[b := old(bc.bufs[i]).data]
        && lh == (if b in old(lh) then old(lh) else old(lh) + [b])
        && bc.bufs == old(bc.bufs)[i := old(bc.bufs[i]).(refcnt :=
             if b in old(lh) then old(bc.bufs[i]).refcnt else old(bc.bufs[i]).refcnt + 1)]
    {
      assert BufOk(bc.bufs[i], refs[i], logical, pinned);
      Append(i);
      RewriteCoherent(bc.bufs, refs, disk.image, logical, pinned, i, disk.image);
      logical := logical[bc.buf[i].blockno := bc.buf[i].data];
    }

    /** log_write() by operation `p` of the buffer it holds.  An operation that logs
        fewer than MAXOPBLOCKS distinct blocks never meets panic("too big a
        transaction"); a block is pinned once however often it is logged. */
    method LogWrite(p: int, i: int)
      requires Valid() && p in ops
      requires 0 <= i < NBUF && |ops[p] + {bc.bufs[i].blockno}| < MAXOPBLOCKS && bc.bufs[i].locked
      requires bc.bufs[i].valid && bc.bufs[i].dev == ROOTDEV
      requires bc.bufs[i].blockno < |disk.image| && !InLog(start, bc.bufs[i].blockno)
      modifies this`n, this`lh, this`logical, this`pinned, this`ops, block, bc.buf, bc`bufs
      ensures Valid() && !committing
      ensures old(n) < LOGBLOCKS && outstanding >= 1
      ensures var b := old(bc.bufs[i]).blockno;
        && b < |old(logical)| && logical == old(logical)[b := old(bc.bufs[i]).data]
        && lh == (if b in old(lh) then old(lh) else old(lh) + [b])
        && bc.bufs == old(bc.bufs)[i := old(bc.bufs[i]).(refcnt :=
             if b in old(lh) then old(bc.bufs[i]).refcnt else old(bc.bufs[i]).refcnt + 1)]
        && ops == old(ops)[p := old(ops)[p] + {b}]
    {
      AdmitLog(ops, outstanding, lh, committing, p, bc.bufs[i].blockno);
      ops := ops[p := ops[p] + {bc.bufs[i].blockno}];
      Relog(i);
    }

    /** end_op() by `p` up to the commit; the result says whether p must commit. */
    method EndOp(p: int) returns (doCommit: bool)
      requires Valid() && p in ops
      modifies this`outstanding, this`committing, this`ops
      ensures Valid() && !old(committing)
      ensures ops == old(ops) - {p} && doCommit == (ops.Keys == {}) && committing == doCommit
    {
      AdmitEnd(ops, outstanding, lh, p);
      outstanding := outstanding - 1;
      ops := ops - {p};
      doCommit := outstanding == 0;
      if doCommit {
        committing := true;
      }
    }

    // ----- commit and recovery -----

    ghost predicate Unused(u: int)
      reads bc
    {
      0 <= u < |bc.bufs| && bc.bufs[u].refcnt == 0
    }

    /** What a commit without readers keeps: an unused buffer, no logged block held, and
        the clients' references. */
    ghost predicate Calm(v: int, refs0: seq<int>)
      reads this, bc
    {
      Unused(v) && Quiet(bc.bufs, lh) && refs == refs0
    }

    ghost predicate Readers()
      reads this, bc
    {
      ReadersOk(bc.bufs, logical, start)
    }

    /** The buffer in which a reader holds block b, or -1. */
    method Holder(b: int) returns (i: int)
      requires Storage() && Readers()
      ensures -1 <= i < NBUF
      ensures i == -1 ==> NotHeld(bc.bufs, b)
      ensures i != -1 ==> bc.bufs[i].locked && bc.bufs[i].blockno == b
    {
      i := 0;
      while i < NBUF
        invariant 0 <= i <= NBUF
        invariant forall j :: 0 <= j < i && bc.bufs[j].locked ==> bc.bufs[j].blockno != b
      {
        if bc.buf[i].locked && bc.buf[i].blockno == b {
          return;
        }
        i := i + 1;
      }
      i := -1;
    }

    /** A reader's brelse(). */
    method LetGo(i: int)
      requires Storage() && Readers() && 0 <= i < NBUF && bc.bufs[i].locked
      modifies this`refs, bc, bc.buf, bc.next, bc.prev
      ensures Storage() && Readers() && HeldSame(old(bc.bufs), bc.bufs) && !bc.bufs[i].locked
    {
      ghost var bs := bc.bufs;
      assert HeldOk(bs[i], logical, start);
      Brelse(i);
      ReadersStay(bs, bc.bufs, logical, logical, start);
    }

    /** One step of a reader, which waits instead when it wants a block that is held.  The
        result false is its panic("bget: no buffers"). */
    method Read(step: ReaderStep) returns (ok: bool)
      requires Storage() && Readers()
      modifies this`refs, bc, bc.buf, bc.next, bc.prev
      ensures Storage() && Readers()
      ensures !ok ==> forall j :: 0 <= j < NBUF ==> bc.bufs[j].refcnt > 0
    {
      ok := true;
      ghost var bs := bc.bufs;
      match step {
        case Get(b) =>
          var h := Holder(b);
          if h == -1 && b < |disk.image| && !(start <= b <= start + LOGBLOCKS) {
            var i := Bread(b);
            if i == NBUF {
              ok := false;
            } else {
              ReadersGet(bs, bc.bufs, i, logical, start);
            }
          }
        case Put(i) =>
          if 0 <= i < NBUF && bc.buf[i].locked {
            LetGo(i);
          }
      }
    }

    /** A commit waits until nobody holds the block; the result is the buffer it waited
        for, or -1. */
    method Wait(home: int) returns (i: int)
      requires Storage() && Readers()
      modifies this`refs, bc, bc.buf, bc.next, bc.prev
      ensures Storage() && Readers() && NotHeld(bc.bufs, home)
      ensures NotHeld(old(bc.bufs), home) ==> refs == old(refs) && bc.bufs == old(bc.bufs)
    {
      ghost var bs := bc.bufs;
      i := Holder(home);
      if i != -1 {
        assert HeldOk(bs[i], logical, start);
        LetGo(i);
        OnlyHolder(bs, bc.bufs, logical, start, i, home);
      }
    }

    /** An unused buffer or one that caches block b, or -1. */
    method FindReady(b: nat) returns (u: int)
      requires Storage()
      ensures -1 <= u < NBUF
      ensures if u == -1 then forall j :: 0 <= j < NBUF ==> bc.bufs[j].refcnt > 0 else Ready(bc.bufs, u, b)
    {
      u := 0;
      while u < NBUF
        invariant 0 <= u <= NBUF
        invariant forall j :: 0 <= j < u ==> bc.bufs[j].refcnt > 0
      {
        if bc.buf[u].refcnt == 0 || (bc.buf[u].dev == ROOTDEV && bc.buf[u].blockno == b) {
          return;
        }
        u := u + 1;
      }
      u := -1;
    }

    /** Readers do what they like; then a commit that wants the block `home` waits until
        nobody holds it.  The result says how bread() of the log block b will find a buffer;
        -1 is a panic("bget: no buffers"), of a reader or of the commit. */
    method Settle(steps: seq<ReaderStep>, home: int, b: nat, ghost v: int, ghost refs0: seq<int>) returns (u: int)
      requires Storage() && Readers() && b < |disk.image|
      modifies this`refs, bc, bc.buf, bc.next, bc.prev
      ensures Storage() && Readers() && -1 <= u < NBUF && (u != -1 ==> NotHeld(bc.bufs, home))
      ensures if u == -1 then forall j :: 0 <= j < NBUF ==> bc.bufs[j].refcnt > 0 else Ready(bc.bufs, u, b)
      ensures steps == [] && old(Calm(v, refs0)) && NotHeld(old(bc.bufs), home) ==> u != -1 && Calm(v, refs0)
    {
      var i := 0;
      while i < |steps|
        invariant 0 <= i <= |steps| && Storage() && Readers()
        invariant i == 0 ==> refs == old(refs) && bc.bufs == old(bc.bufs)
      {
        var ok := Read(steps[i]);
        if !ok {
          return -1;
        }
        i := i + 1;
      }
      u := Wait(home);
      u := FindReady(b);
    }

    /** Reads a log block and a home block, which locks a buffer for each. */
    method ReadPair(logb: nat, home: nat, ghost u: int) returns (l: int, h: int)
      requires Storage() && logb < |disk.image| && home < |disk.image| && logb != home
      requires NotHeld(bc.bufs, logb) && NotHeld(bc.bufs, home) && Ready(bc.bufs, u, logb)
      requires (home in pinned || (pinned == {} && forall j :: 0 <= j < NBUF ==> refs[j] == 0))
      modifies this`refs, bc.buf, bc`bufs
      ensures Storage() && 0 <= l < NBUF && 0 <= h < NBUF && l != h
      ensures refs == old(refs)[l := old(refs)[l] + 1][h := old(refs)[h] + 1]
      ensures !old(bc.bufs[l]).locked && !old(bc.bufs[h]).locked
      ensures home in pinned ==> old(bc.bufs[h]).refcnt > 0
      ensures bc.bufs[l] == Buf(true, ROOTDEV, logb, old(bc.bufs[l]).refcnt + 1, true, logical[logb])
      ensures bc.bufs[h] == Buf(true, ROOTDEV, home, old(bc.bufs[h]).refcnt + 1, true, logical[home])
      ensures forall j :: 0 <= j < NBUF && j != l && j != h ==> bc.bufs[j] == old(bc.bufs[j])
    {
      l := Bread(logb);
      assert l != NBUF;
      ghost var bs := bc.bufs;
      assert forall j :: 0 <= j < NBUF && Cached(bs, j, ROOTDEV, home) ==> !bs[j].locked;
      h := Bread(home);
      if h == NBUF {
        AllUnused(bs, refs, disk.image, logical, pinned, if l == 0 then 1 else 0);
      }
    }

    /** brelse() of both buffers. */
    method ReleasePair(l: int, h: int)
      requires Storage() && 0 <= l < NBUF && 0 <= h < NBUF && l != h
      requires bc.bufs[l].locked && Current(bc.bufs[l], logical)
      requires bc.bufs[h].locked && Current(bc.bufs[h], logical)
      modifies this`refs, bc, bc.buf, bc.next, bc.prev
      ensures Storage()
      ensures refs[l] == old(refs)[l] - 1 && refs[h] == old(refs)[h] - 1
      ensures refs == old(refs)[l := refs[l]][h := refs[h]]
      ensures old(bc.bufs[l]).refcnt > 0
      ensures bc.bufs[l] == old(bc.bufs[l]).(locked := false, refcnt := old(bc.bufs[l]).refcnt - 1)
      ensures old(bc.bufs[h]).refcnt > 0
      ensures bc.bufs[h] == old(bc.bufs[h]).(locked := false, refcnt := old(bc.bufs[h]).refcnt - 1)
      ensures forall j :: 0 <= j < NBUF && j != l && j != h ==> bc.bufs[j] == old(bc.bufs[j])
    {
      Brelse(l);
      Brelse(h);
    }

    /** memmove() between two held buffers, then bwrite() of the copy. */
    method CopyOut(src: int, dst: int)
      requires Storage() && 0 <= src < NBUF && 0 <= dst < NBUF && src != dst
      requires bc.bufs[dst].locked && bc.bufs[dst].dev == ROOTDEV && bc.bufs[dst].blockno < |disk.image|
      modifies this`logical, disk, bc.buf, bc`bufs
      ensures Storage()
      ensures bc.bufs[dst] == old(bc.bufs[dst]).(data := old(bc.bufs[src]).data)
      ensures forall j :: 0 <= j < NBUF && j != dst ==> bc.bufs[j] == old(bc.bufs[j])
      ensures var b, data := old(bc.bufs[dst]).blockno, old(bc.bufs[src]).data;
        && b < |old(disk.image)| == |old(logical)|
        && disk.trace == old(disk.trace) + [Write(b, data)]
        && disk.image == old(disk.image)[b := data]
        && logical == old(logical)[b := data]
    {
      Edit(dst, bc.buf[src].data);
      Bwrite(dst);
    }

    /** One iteration of write_log(): the cached contents of a logged block go to
        its log block. */
    method ToLog(logb: nat, home: nat, ghost u: int, ghost v: int)
      requires Storage() && logb < |disk.image| && home < |disk.image| && logb != home
      requires NotHeld(bc.bufs, logb) && NotHeld(bc.bufs, home) && Ready(bc.bufs, u, logb)
      requires home in pinned
      modifies this`refs, this`logical, disk, bc, bc.buf, bc.next, bc.prev
      ensures Storage() && refs == old(refs) && (old(Unused(v)) ==> Unused(v))
      ensures HeldSame(old(bc.bufs), bc.bufs)
      ensures disk.trace == old(disk.trace) + [Write(logb, old(logical)[home])]
      ensures disk.image == old(disk.image)[logb := old(logical)[home]]
      ensures logical == old(logical)[logb := old(logical)[home]]
    {
      var l, h := ReadPair(logb, home, u);
      CopyOut(h, l);
      ReleasePair(l, h);
      assert refs == old(refs);
    }

    /** One iteration of install_trans(): a log block goes to its home block, whose
        pin is dropped unless the system is recovering. */
    method ToHome(logb: nat, home: nat, recovering: bool, ghost u: int, ghost v: int)
      requires Storage() && logb < |disk.image| && home < |disk.image| && logb != home
      requires NotHeld(bc.bufs, logb) && NotHeld(bc.bufs, home) && Ready(bc.bufs, u, logb)
      requires if recovering then pinned == {} && forall j :: 0 <= j < NBUF ==> refs[j] == 0 else home in pinned
      modifies this`refs, this`logical, this`pinned, disk, bc, bc.buf, bc.next, bc.prev
      ensures Storage() && refs == old(refs) && (old(Unused(v)) ==> Unused(v))
      ensures pinned == if recovering then {} else old(pinned) - {home}
      ensures HeldSame(old(bc.bufs), bc.bufs)
      ensures disk.trace == old(disk.trace) + [Write(home, old(logical)[logb])]
      ensures disk.image == old(disk.image)[home := old(logical)[logb]]
      ensures logical == old(logical)[home := old(logical)[logb]]
    {
      var l, h := ReadPair(logb, home, u);
      CopyOut(l, h);
      if !recovering {
        Bunpin(h);
      }
      ReleasePair(l, h);
      assert refs == old(refs);
    }

    /** The header buffer's words as write_head() sets them: the count, then the
        block list, over whatever the buffer held. */
    method FillHeader(h: Block) returns (r: Block)
      requires h.Full() && block.Length == LOGBLOCKS && 0 <= n <= LOGBLOCKS && lh == block[..n]
      ensures r == HeaderBlock(h, lh)
    {
      var w := h.words[0 := n];
      var i := 0;
      while i < n
        invariant 0 <= i <= n
        invariant w == [n] + lh[..i] + h.words[1 + i..]
      {
        w := w[1 + i := block[i]];
        i := i + 1;
      }
      assert lh[..n] == lh;
      r := Block(w);
    }

    /** write_head(). */
    method WriteHead(ghost u: int, ghost v: int)
      requires Storage() && List() && Readers() && Ready(bc.bufs, u, start) && start !in pinned && logical[start].Full()
      modifies this`refs, this`logical, disk, bc, bc.buf, bc.next, bc.prev
      ensures Storage() && List() && Readers() && refs == old(refs) && (old(Unused(v)) ==> Unused(v))
      ensures HeldSame(old(bc.bufs), bc.bufs)
      ensures var h := HeaderBlock(old(logical)[start], lh);
        && disk.trace == old(disk.trace) + [Write(start, h)]
        && disk.image == old(disk.image)[start := h]
        && logical == old(logical)[start := h]
    {
      ghost var bs, logical0 := bc.bufs, logical;
      assert InLog(start, start);
      LogNotHeld(bs, logical, start, start);
      var i := Bread(start);
      var h := FillHeader(bc.buf[i].data);
      Edit(i, h);
      Bwrite(i);
      Brelse(i);
      assert refs == old(refs);
      ReadersStay(bs, bc.bufs, logical0, logical, start);
    }

    /** Where write_log() stands after copying the first `tail` blocks. */
    ghost predicate LogCopied(tail: int, trace0: seq<Write>, image0: Image, logical0: Image, data: seq<Block>)
      reads this, block, disk, bc, bc.buf, bc.next, bc.prev
    {
      && Storage() && List() && Readers() && 0 <= tail <= n == |data|
      && |logical0| == |image0| && GoodDests(|image0|, start, lh) && data == Contents(logical0, lh)
      && Wrote(trace0, image0, LogWrites(start, data[..tail]), disk.trace, disk.image)
      && SameHome(logical, logical0, start)
    }

    /** One iteration of write_log(). */
    method WriteLogStep(tail: int, ghost u: int, ghost v: int, ghost trace0: seq<Write>, ghost image0: Image,
                        ghost logical0: Image, ghost data: seq<Block>)
      requires LogCopied(tail, trace0, image0, logical0, data)
      requires tail < n && AllPinned(pinned, lh) && NotHeld(bc.bufs, lh[tail]) && Ready(bc.bufs, u, start + tail + 1)
      modifies this`refs, this`logical, disk, bc, bc.buf, bc.next, bc.prev
      ensures LogCopied(tail + 1, trace0, image0, logical0, data) && refs == old(refs)
      ensures HeldSame(old(bc.bufs), bc.bufs) && (old(Unused(v)) ==> Unused(v))
    {
      ghost var bs, logical1 := bc.bufs, logical;
      assert InLog(start, start + tail + 1) && Logged(lh, lh[tail]);
      LogNotHeld(bs, logical, start, start + tail + 1);
      ToLog(start + tail + 1, block[tail], u, v);
      ReadersStay(bs, bc.bufs, logical1, logical, start);
      LogWritesSnoc(start, data, tail);
      WroteNext(trace0, image0, LogWrites(start, data[..tail]), Write(start + 1 + tail, data[tail]), disk.trace,
                disk.image);
    }

    /** A panic("bget: no buffers"): every buffer is referenced. */
    ghost predicate Stuck()
      reads bc
    {
      |bc.bufs| == NBUF && forall j :: 0 <= j < NBUF ==> bc.bufs[j].refcnt > 0
    }

    /** A turn of write_log() with what readers do before it. */
    method WriteLogTurn(tail: int, steps: seq<ReaderStep>, ghost v: int, ghost refs0: seq<int>,
                        ghost trace0: seq<Write>, ghost image0: Image, ghost logical0: Image, ghost data: seq<Block>)
      returns (ok: bool)
      requires LogCopied(tail, trace0, image0, logical0, data) && tail < n && AllPinned(pinned, lh)
      modifies this`refs, this`logical, disk, bc, bc.buf, bc.next, bc.prev
      ensures if ok then LogCopied(tail + 1, trace0, image0, logical0, data) else Stuck()
      ensures steps == [] && old(Calm(v, refs0)) ==> ok && Calm(v, refs0)
    {
      ghost var bs := bc.bufs;
      assert Logged(lh, lh[tail]);
      var u := Settle(steps, block[tail], start + tail + 1, v, refs0);
      ok := u != -1;
      if ok {
        ghost var bs1 := bc.bufs;
        WriteLogStep(tail, u, v, trace0, image0, logical0, data);
        if Quiet(bs1, lh) {
          QuietStays(bs1, bc.bufs, lh);
        }
      }
    }

    /** write_log(): the cached contents of the logged blocks go to the log. */
    method WriteLog(env: seq<seq<ReaderStep>>, ghost v: int, ghost refs0: seq<int>) returns (ok: bool)
      requires Storage() && List() && Readers() && AllPinned(pinned, lh)
      modifies this`refs, this`logical, disk, bc, bc.buf, bc.next, bc.prev
      ensures if ok then LogCopied(n, old(disk.trace), old(disk.image), old(logical), Contents(old(logical), lh))
                else Stuck()
      ensures env == [] && old(Calm(v, refs0)) ==> ok && Calm(v, refs0)
    {
      ghost var trace0, image0, logical0, data := disk.trace, disk.image, logical, Contents(logical, lh);
      ghost var calm := env == [] && Calm(v, refs0);
      var tail := 0;
      ok := true;
      while tail < n
        invariant LogCopied(tail, trace0, image0, logical0, data) && (calm ==> Calm(v, refs0))
      {
        ok := WriteLogTurn(tail, StepsAt(env, tail), v, refs0, trace0, image0, logical0, data);
        if !ok {
          return;
        }
        tail := tail + 1;
      }
    }

    /** Which pins install_trans() still has to drop. */
    ghost predicate PinsLeft(tail: int, recovering: bool)
      reads this
    {
      if recovering then pinned == {} && forall j :: 0 <= j < |refs| ==> refs[j] == 0
      else (forall i :: 0 <= i < |lh| ==> (lh[i] in pinned <==> tail <= i))
    }

    /** Where install_trans() stands after copying the first `tail` blocks. */
    ghost predicate Installed(tail: int, recovering: bool, trace0: seq<Write>, image0: Image, logical0: Image,
                              data: seq<Block>, done: seq<Write>)
      reads this, block, disk, bc, bc.buf, bc.next, bc.prev
    {
      && Storage() && List() && Readers() && PinsLeft(tail, recovering)
      && InstalledOn(start, lh, tail, recovering, trace0, image0, logical0, data, done, disk.trace, disk.image, logical)
    }

    /** The copying of one iteration of install_trans(). */
    method InstallBlock(tail: int, recovering: bool, ghost u: int, ghost v: int)
      requires Storage() && List() && Readers() && PinsLeft(tail, recovering) && 0 <= tail < n
      requires NotHeld(bc.bufs, lh[tail]) && Ready(bc.bufs, u, start + tail + 1)
      requires !recovering ==> logical[lh[tail]] == logical[start + tail + 1]
      modifies this`refs, this`logical, this`pinned, disk, bc, bc.buf, bc.next, bc.prev
      ensures Storage() && List() && Readers() && PinsLeft(tail + 1, recovering) && refs == old(refs)
      ensures !recovering ==> logical == old(logical)
      ensures HeldSame(old(bc.bufs), bc.bufs) && (old(Unused(v)) ==> Unused(v))
      ensures disk.trace == old(disk.trace) + [Write(lh[tail], old(logical)[start + tail + 1])]
      ensures disk.image == old(disk.image)[lh[tail] := old(logical)[start + tail + 1]]
      ensures logical == old(logical)[lh[tail] := old(logical)[start + tail + 1]]
    {
      ghost var bs, logical1 := bc.bufs, logical;
      assert InLog(start, start + tail + 1) && Logged(lh, lh[tail]);
      LogNotHeld(bs, logical, start, start + tail + 1);
      InstallHeld(bs, refs, disk.image, logical, pinned, recovering);
      if !recovering {
        PinsNext(lh, pinned, tail);
      }
      ToHome(start + tail + 1, block[tail], recovering, u, v);
      PinsShrink(old(pinned), pinned, lh);
      ReadersInstalled(bs, bc.bufs, logical1, logical, start, recovering);
    }

    /** One iteration of install_trans(). */
    method InstallStep(tail: int, recovering: bool, ghost u: int, ghost v: int, ghost trace0: seq<Write>,
                       ghost image0: Image, ghost logical0: Image, ghost data: seq<Block>, ghost done: seq<Write>)
      requires Installed(tail, recovering, trace0, image0, logical0, data, done) && tail < n == |lh|
      requires NotHeld(bc.bufs, lh[tail]) && Ready(bc.bufs, u, start + tail + 1)
      modifies this`refs, this`logical, this`pinned, disk, bc, bc.buf, bc.next, bc.prev
      ensures Installed(tail + 1, recovering, trace0, image0, logical0, data, done + [Write(lh[tail], data[tail])])
      ensures refs == old(refs) && HeldSame(old(bc.bufs), bc.bufs) && (old(Unused(v)) ==> Unused(v))
    {
      InstallReady(bc.bufs, refs, image0, disk.image, logical, pinned, start, lh, data, tail, done);
      assert Logged(lh, lh[tail]);
      InstallSame(lh, data, tail, recovering, logical, logical0, start);
      ghost var trace1, image1 := disk.trace, disk.image;
      InstallBlock(tail, recovering, u, v);
      InstallNext(start, lh, tail, recovering, trace0, image0, logical0, data, done, trace1, image1, disk.trace,
                  disk.image, logical);
    }

    /** A turn of install_trans() with what readers do before it. */
    method InstallTurn(tail: int, recovering: bool, steps: seq<ReaderStep>, ghost v: int, ghost refs0: seq<int>,
                       ghost trace0: seq<Write>, ghost image0: Image, ghost logical0: Image,
                       ghost data: seq<Block>, ghost done: seq<Write>) returns (ok: bool, ghost done': seq<Write>)
      requires Installed(tail, recovering, trace0, image0, logical0, data, done) && tail < n == |lh|
      requires recovering ==> steps == [] && Calm(v, refs0)
      modifies this`refs, this`logical, this`pinned, disk, bc, bc.buf, bc.next, bc.prev
      ensures if ok then Installed(tail + 1, recovering, trace0, image0, logical0, data, done') else Stuck()
      ensures steps == [] && old(Calm(v, refs0)) ==> ok && Calm(v, refs0)
    {
      assert Logged(lh, lh[tail]);
      done' := done;
      var u := Settle(steps, block[tail], start + tail + 1, v, refs0);
      ok := u != -1;
      if ok {
        ghost var bs1 := bc.bufs;
        InstallStep(tail, recovering, u, v, trace0, image0, logical0, data, done);
        done' := done + [Write(lh[tail], data[tail])];
        if Quiet(bs1, lh) {
          QuietStays(bs1, bc.bufs, lh);
        }
      }
    }

    /** The loop of install_trans(), from a state where nothing has gone home yet.  What
        readers do is at points `from` on of env. */
    method InstallLoop(recovering: bool, env: seq<seq<ReaderStep>>, from: int, ghost v: int, ghost refs0: seq<int>,
                       ghost trace0: seq<Write>, ghost image0: Image, ghost logical0: Image, ghost data: seq<Block>)
      returns (ok: bool, ghost done: seq<Write>)
      requires Installed(0, recovering, trace0, image0, logical0, data, [])
      requires recovering ==> env == [] && Calm(v, refs0)
      modifies this`refs, this`logical, this`pinned, disk, bc, bc.buf, bc.next, bc.prev
      ensures if ok then Installed(n, recovering, trace0, image0, logical0, data, done) else Stuck()
      ensures env == [] && old(Calm(v, refs0)) ==> ok && Calm(v, refs0)
    {
      ghost var calm := env == [] && Calm(v, refs0);
      done := [];
      var tail := 0;
      ok := true;
      while ok && tail < n
        invariant if ok then Installed(tail, recovering, trace0, image0, logical0, data, done) else Stuck()
        invariant calm ==> ok && Calm(v, refs0)
        decreases n - tail
      {
        ok, done := InstallTurn(tail, recovering, StepsAt(env, from + tail), v, refs0, trace0, image0, logical0, data,
                                done);
        tail := tail + 1;
      }
    }

    /** install_trans(): the blocks in the log go home. */
    method InstallTrans(recovering: bool, env: seq<seq<ReaderStep>>, from: int, ghost v: int, ghost refs0: seq<int>,
                        ghost data: seq<Block>) returns (ok: bool)
      requires Storage() && List() && Readers() && PinsLeft(0, recovering)
      requires data == disk.image[start + 1..start + 1 + n]
      requires if recovering then env == [] && Calm(v, refs0) else Contents(logical, lh) == data
      modifies this`refs, this`logical, this`pinned, disk, bc, bc.buf, bc.next, bc.prev
      ensures if ok then Storage() && List() && Readers() else Stuck()
      ensures ok ==> pinned == {} && (recovering ==> refs == refs0)
      ensures ok ==> Wrote(old(disk.trace), old(disk.image), InstallWrites(lh, data), disk.trace, disk.image)
      ensures ok && !recovering ==> SameHome(logical, old(logical), start)
      ensures env == [] && old(Calm(v, refs0)) ==> ok && Calm(v, refs0)
    {
      ghost var done;
      ok, done := InstallLoop(recovering, env, from, v, refs0, disk.trace, disk.image, logical, data);
      if ok {
        assert lh[..n] == lh && data[..n] == data;
        NoPins(pinned, lh);
      }
    }

    /** write_head() with what readers do before it. */
    method WriteHeadTurn(steps: seq<ReaderStep>, ghost v: int, ghost refs0: seq<int>) returns (ok: bool)
      requires Storage() && List() && Readers() && start !in pinned && logical[start].Full()
      modifies this`refs, this`logical, disk, bc, bc.buf, bc.next, bc.prev
      ensures if ok then Storage() && List() && Readers() else Stuck()
      ensures steps == [] && old(Calm(v, refs0)) ==> ok && Calm(v, refs0)
      ensures ok ==>
                && disk.trace == old(disk.trace) + [Write(start, HeaderBlock(old(logical)[start], lh))]
                && disk.image == old(disk.image)[start := HeaderBlock(old(logical)[start], lh)]
                && logical == old(logical)[start := HeaderBlock(old(logical)[start], lh)]
    {
      assert InLog(start, start);
      LogNotHeld(bc.bufs, logical, start, start);
      var u := Settle(steps, start, start, v, refs0);
      ok := u != -1;
      if ok {
        ghost var bs1 := bc.bufs;
        WriteHead(u, v);
        if Quiet(bs1, lh) {
          QuietStays(bs1, bc.bufs, lh);
        }
      }
    }

    /** The first half of commit(): write_log() and write_head(). */
    method Publish(env: seq<seq<ReaderStep>>, ghost v: int, ghost refs0: seq<int>) returns (ok: bool)
      requires Storage() && List() && Readers() && disk.image[start].Full() && AllPinned(pinned, lh)
      modifies this`refs, this`logical, disk, bc, bc.buf, bc.next, bc.prev
      ensures if ok then Storage() && List() && Readers() else Stuck()
      ensures ok ==>
                IsPublished(old(disk.trace), old(disk.image), start, lh, Contents(old(logical), lh), disk.trace,
                            disk.image)
      ensures ok ==> SameHome(logical, old(logical), start)
      ensures env == [] && old(Calm(v, refs0)) ==> ok && Calm(v, refs0)
    {
      ghost var trace0, image0, logical0, data := disk.trace, disk.image, logical, Contents(logical, lh);
      ok := WriteLog(env, v, refs0);
      if ok {
        assert data[..n] == data;
        LogWritesHeader(image0, start, data);
        LogInPlace(bc.bufs, refs, disk.image, logical, pinned, start, lh, start);
        ok := WriteHeadTurn(StepsAt(env, n), v, refs0);
        if ok {
          PublishedWrites(trace0, image0, start, lh, data, disk.trace, disk.image);
        }
      }
    }

    /** The second half of commit(), and all of recovery after read_head():
        install_trans(), then write_head() with a zero count. */
    method Empty(recovering: bool, env: seq<seq<ReaderStep>>, from: int, ghost v: int, ghost refs0: seq<int>)
      returns (ok: bool)
      requires Storage() && List() && Readers() && PinsLeft(0, recovering)
      requires WellFormed(disk.image, start) && Dests(disk.image[start]) == lh
      requires if recovering then env == [] && Calm(v, refs0) else Contents(logical, lh) == LogData(disk.image, start)
      modifies this`n, this`lh, this`refs, this`logical, this`pinned, disk, bc, bc.buf, bc.next, bc.prev
      ensures if ok then Storage() && List() && Readers() else Stuck()
      ensures ok ==> n == 0 && lh == [] && pinned == {} && Clean(disk.image, start) && logical == disk.image
      ensures ok && !recovering ==> SameHome(logical, old(logical), start)
      ensures ok ==>
                Wrote(old(disk.trace), old(disk.image), RecoveryWrites(old(disk.image), start), disk.trace, disk.image)
      ensures env == [] && old(Calm(v, refs0)) ==> ok && refs == refs0
    {
      ghost var trace0, image0, lh0, data := disk.trace, disk.image, lh, LogData(disk.image, start);
      var last := from + n;
      ok := InstallTrans(recovering, env, from, v, refs0, data);
      if ok {
        InstallKeepsLogBlock(image0, start, lh0, data, start);
        n, lh := 0, [];
        LogInPlace(bc.bufs, refs, disk.image, logical, pinned, start, lh, start);
        ok := WriteHeadTurn(StepsAt(env, last), v, refs0);
        if ok {
          EmptiedWrites(trace0, image0, start, lh0, data, disk.trace, disk.image);
          AllInPlace(bc.bufs, refs, disk.image, logical, pinned);
        }
      }
    }

    /** commit() when something was logged. */
    method CommitLogged(env: seq<seq<ReaderStep>>, ghost v: int, ghost refs0: seq<int>, ghost data: seq<Block>)
      returns (ok: bool)
      requires Storage() && List() && n > 0 && Readers()
      requires disk.image[start].Full() && AllPinned(pinned, lh) && data == Contents(logical, lh)
      modifies this`n, this`lh, this`refs, this`logical, this`pinned, disk, bc, bc.buf, bc.next, bc.prev
      ensures if ok then Storage() && List() && Readers() else Stuck()
      ensures ok ==> n == 0 && lh == [] && pinned == {} && Clean(disk.image, start)
      ensures ok ==> disk.image == logical && SameHome(logical, old(logical), start)
      ensures ok ==>
                Wrote(old(disk.trace), old(disk.image), CommitWrites(old(disk.image)[start], start, old(lh), data),
                      disk.trace, disk.image)
      ensures env == [] && old(Calm(v, refs0)) ==> ok && refs == refs0
    {
      ghost var trace0, image0, lh0 := disk.trace, disk.image, lh;
      ok := Publish(env, v, refs0);
      if ok {
        ghost var trace1, image1 := disk.trace, disk.image;
        SameContents(logical, old(logical), start, lh);
        ok := Empty(false, env, n + 1, v, refs0);
        if ok {
          CommittedWrites(trace0, image0, start, lh0, data, trace1, image1, disk.trace, disk.image);
        }
      }
    }

    /** commit(), run by the operation whose end_op() found no other running, while readers
        take and release buffers as they like: env says what they do before each block is
        copied and before each header write.  The disk sees exactly the writes of
        CommitWrites; the logical contents of the home blocks do not change, and are all in
        place on the disk afterwards.  The result false is a panic("bget: no buffers"), which
        cannot happen without readers when a buffer is unused. */
    method Commit(env: seq<seq<ReaderStep>>, ghost v: int) returns (ok: bool)
      requires Valid() && committing && Readers()
      modifies this`n, this`lh, this`refs, this`logical, this`pinned, disk, bc, bc.buf, bc.next, bc.prev
      ensures if ok then Valid() && Readers() else Stuck()
      ensures ok ==> n == 0 && SameHome(logical, old(logical), start) && disk.image == logical
      ensures ok ==>
                Wrote(old(disk.trace), old(disk.image),
                      CommitWrites(old(disk.image)[start], start, old(lh), Contents(old(logical), old(lh))),
                      disk.trace, disk.image)
      ensures env == [] && old(Unused(v)) && Quiet(old(bc.bufs), old(lh)) ==> ok && refs == old(refs)
    {
      ghost var data := Contents(logical, lh);
      if n > 0 {
        ok := CommitLogged(env, v, refs, data);
      } else {
        ok := true;
        assert lh == [];
        NoPins(pinned, lh);
        AllInPlace(bc.bufs, refs, disk.image, logical, pinned);
      }
    }

    /** commit() while nobody holds a buffer: fewer than LOGBLOCKS blocks are logged, and NBUF
        is LOGBLOCKS, so it always finds a buffer and always completes. */
    method CommitAlone()
      requires Valid() && committing && forall j :: 0 <= j < NBUF ==> refs[j] == 0
      modifies this`n, this`lh, this`refs, this`logical, this`pinned, disk, bc, bc.buf, bc.next, bc.prev
      ensures Valid() && Readers() && n == 0 && refs == old(refs)
      ensures SameHome(logical, old(logical), start) && disk.image == logical
      ensures Wrote(old(disk.trace), old(disk.image),
                    CommitWrites(old(disk.image)[start], start, old(lh), Contents(old(logical), old(lh))),
                    disk.trace, disk.image)
    {
      NoReaders(bc.bufs, refs, disk.image, logical, pinned, start, lh);
      CommitFindsBuffer(bc.bufs, refs, disk.image, logical, pinned, lh);
      ghost var v :| 0 <= v < NBUF && bc.bufs[v].refcnt == 0;
      var ok := Commit([], v);
    }

    /** The end of end_op(): the log is open for operations again. */
    method FinishCommit()
      requires Valid() && committing
      modifies this`committing
      ensures Valid() && !committing
    {
      committing := false;
    }

    /** The copying of read_head(). */
    method CopyList(h: Block)
      requires GoodHeader(h) && block.Length == LOGBLOCKS
      modifies this`n, this`lh, block
      ensures 0 <= n <= LOGBLOCKS && lh == block[..n] == Dests(h)
    {
      n := h.words[0];
      var i := 0;
      while i < n
        invariant 0 <= i <= n && n == |Dests(h)|
        invariant block[..i] == Dests(h)[..i]
        modifies block
      {
        block[i] := h.words[1 + i];
        i := i + 1;
      }
      lh := Dests(h);
    }

    /** read_head(): the block list is what the header on disk says. */
    method ReadHead()
      requires Storage() && WellFormed(disk.image, start) && block.Length == LOGBLOCKS && pinned == {}
      requires exists u :: Unused(u)
      requires forall j :: 0 <= j < NBUF ==> refs[j] == 0
      modifies this`n, this`lh, this`refs, block, bc, bc.buf, bc.next, bc.prev
      ensures Storage() && List() && refs == old(refs) && lh == Dests(disk.image[start])
    {
      Unheld(bc.bufs, refs, disk.image, logical, pinned);
      AllInPlace(bc.bufs, refs, disk.image, logical, pinned);
      var b := Bread(start);
      var h := bc.buf[b].data;
      CopyList(h);
      Brelse(b);
      assert refs == old(refs);
    }

    /** recover_from_log(): the disk sees exactly the writes of RecoveryWrites, and
        the log is open for operations. */
    method RecoverFromLog()
      requires Storage() && List() && Admission() && n == 0 && ops.Keys == {} && !committing
      requires WellFormed(disk.image, start) && pinned == {}
      requires forall j :: 0 <= j < NBUF ==> refs[j] == 0
      modifies this`n, this`lh, this`refs, this`logical, this`pinned, block, disk, bc, bc.buf, bc.next, bc.prev
      ensures Valid() && n == 0 && logical == disk.image
      ensures Wrote(old(disk.trace), old(disk.image), RecoveryWrites(old(disk.image), start), disk.trace, disk.image)
      ensures SameHome(logical, Durable(old(disk.image), start), start)
    {
      ghost var image0 := disk.image;
      AllUnused(bc.bufs, refs, disk.image, logical, pinned, 0);
      assert Unused(0);
      ReadHead();
      NoReaders(bc.bufs, refs, disk.image, logical, pinned, start, lh);
      AllUnused(bc.bufs, refs, disk.image, logical, pinned, 0);
      var ok := Empty(true, [], 0, 0, refs);
      RecoveryCrash(image0, start, |RecoveryWrites(image0, start)|);
      assert RecoveryWrites(image0, start)[..|RecoveryWrites(image0, start)|] == RecoveryWrites(image0, start);
    }
  }
}
