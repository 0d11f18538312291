/** The block allocator, the inode block map and file contents of kernel/fs.c, on the
    logical blocks that the cache and the log present. */
module Files {
  import opened Blocks
  import opened Bitmap

  const NDIRECT := 12
  const NINDIRECT := 256
  const MAXFILE := NDIRECT + NINDIRECT
  /** The slot of the indirect block itself. */
  const INDIRECT := MAXFILE

  datatype Inode = Inode(size: int, addrs: seq<int>)

  /** The addresses of an empty inode. */
  const NO_ADDRS: seq<int> := [0, 0, 0, 0, 0, 0, 0, 0, 0, 0, 0, 0, 0]
  /** Inodes to a block, and words to an inode. */
  const IPB := 16
  const IWORDS := 16

  /** Where the parts of the disk are: boot block, super block, log, inodes, free map;
      blocks below datastart are metadata. */
  datatype Layout = Layout(size: int, logstart: int, nlog: int, inodestart: int, bmapstart: int, datastart: int) {
    function FreeMap(): Map {
      Map(bmapstart, size)
    }

    function Inodes(): int {
      (bmapstart - inodestart) * IPB
    }
  }

  /** What a block is for: slot idx of inode inum; with inum below zero, a process that has
      taken it from the free map and not yet put it in a slot. */
  datatype Slot = Slot(inum: int, idx: int)

  function Pending(proc: nat): (slot: Slot)
    ensures slot.inum < 0
  {
    Slot(-1 - proc, 0)
  }

  datatype State = State(blocks: Image, inodes: seq<Inode>, owner: map<int, Slot>)

  ghost predicate LayoutOk(l: Layout) {
    && 0 < l.logstart && 0 < l.nlog && l.logstart + l.nlog <= l.inodestart < l.bmapstart && 0 < l.size < 0x1_0000_0000
    && l.bmapstart + (l.size - 1) / BPB < l.datastart <= l.size
  }

  /** Word j of block a; 0 if there is no such block. */
  function WordIn(blocks: Image, a: int, j: int): int {
    if 0 < a < |blocks| && blocks[a].Full() && 0 <= j < BWORDS then blocks[a].words[j] else 0
  }

  /** The block number in a slot of an inode, 0 if none. */
  function Entry(ino: Inode, blocks: Image, idx: int): int {
    if |ino.addrs| != NDIRECT + 1 || idx < 0 || idx > INDIRECT then 0
    else if idx < NDIRECT then ino.addrs[idx]
    else if idx == INDIRECT then ino.addrs[NDIRECT]
    else WordIn(blocks, ino.addrs[NDIRECT], idx - NDIRECT)
  }

  /** Byte k of block a. */
  function ByteIn(blocks: Image, a: int, k: int): int {
    if 0 < a < |blocks| && blocks[a].Full() && 0 <= k < BSIZE then Bytes(blocks[a])[k] else 0
  }

  /** The k-th byte of a file. */
  function ByteAt(ino: Inode, blocks: Image, pos: int): int {
    ByteIn(blocks, Entry(ino, blocks, pos / BSIZE), pos % BSIZE)
  }

  /** The contents of a file. */
  function File(ino: Inode, blocks: Image): seq<int> {
    if ino.size < 0 then [] else seq(ino.size, pos => ByteAt(ino, blocks, pos))
  }

  // ----- the invariant -----

  ghost predicate OwnedBy(s: State, b: int, slot: Slot) {
    b in s.owner && s.owner[b] == slot
  }

  ghost predicate SlotOk(s: State, i: int, idx: int)
    requires 0 <= i < |s.inodes|
  {
    Entry(s.inodes[i], s.blocks, idx) != 0 ==> OwnedBy(s, Entry(s.inodes[i], s.blocks, idx), Slot(i, idx))
  }

  /** An owned block is in its owner's slot; one that is pending is still zeroed. */
  ghost predicate OwnerOk(l: Layout, s: State, b: int)
    requires b in s.owner
  {
    && l.datastart <= b < l.size && s.owner[b].inum < |s.inodes|
    && if s.owner[b].inum < 0 then 0 <= b < |s.blocks| && s.blocks[b] == ZeroBlock()
       else 0 <= s.owner[b].idx <= INDIRECT && Entry(s.inodes[s.owner[b].inum], s.blocks, s.owner[b].idx) == b
  }

  ghost predicate UsedOk(l: Layout, s: State, b: int)
    requires MapFits(l.FreeMap(), s.blocks) && 0 <= b < l.size
  {
    IsUsed(l.FreeMap(), s.blocks, b) <==> b < l.datastart || b in s.owner
  }

  ghost predicate HasBlock(s: State, i: int, bn: int)
    requires 0 <= i < |s.inodes|
  {
    Entry(s.inodes[i], s.blocks, bn) != 0
  }

  ghost predicate InodeOk(s: State, i: int)
    requires 0 <= i < |s.inodes|
  {
    |s.inodes[i].addrs| == NDIRECT + 1 && 0 <= s.inodes[i].size <= MAXFILE * BSIZE
  }

  /** Every block index below n bytes is mapped. */
  ghost predicate MappedTo(s: State, i: int, n: int)
    requires 0 <= i < |s.inodes|
  {
    forall bn {:trigger HasBlock(s, i, bn)} :: 0 <= bn && bn * BSIZE < n ==> HasBlock(s, i, bn)
  }

  /** The blocks from the inodes on are whole. */
  ghost predicate BlocksOk(l: Layout, blocks: Image) {
    && LayoutOk(l) && |blocks| == l.size && MapFits(l.FreeMap(), blocks)
    && forall b {:trigger blocks[b]} :: l.inodestart <= b < l.bmapstart ==> blocks[b].Full()
  }

  /** Disk and inodes have their shapes. */
  ghost predicate Shaped(l: Layout, s: State) {
    && BlocksOk(l, s.blocks) && |s.inodes| == l.Inodes()
    && forall i {:trigger InodeOk(s, i)} :: 0 <= i < |s.inodes| ==> InodeOk(s, i)
  }

  /** No block is in two slots.  itrunc() frees the blocks of inode i's slots below j
      in the indirect block while that block still names them. */
  ghost predicate SlotsOk(l: Layout, s: State, i: int, j: int) {
    && (forall k, idx {:trigger SlotOk(s, k, idx)} ::
        0 <= k < |s.inodes| && 0 <= idx <= INDIRECT && !(k == i && NDIRECT <= idx < j) ==>
         SlotOk(s, k, idx))
    && (forall b {:trigger OwnerOk(l, s, b)} :: b in s.owner ==> OwnerOk(l, s, b))
  }

  /** The free map marks the metadata and the owned blocks. */
  ghost predicate MarksOk(l: Layout, s: State)
    requires MapFits(l.FreeMap(), s.blocks)
  {
    forall b {:trigger UsedOk(l, s, b)} :: 0 <= b < l.size ==> UsedOk(l, s, b)
  }

  ghost predicate SizesOk(s: State) {
    forall i {:trigger MappedTo(s, i, s.inodes[i].size)} :: 0 <= i < |s.inodes| ==>
      MappedTo(s, i, s.inodes[i].size)
  }

  ghost predicate Ok(l: Layout, s: State) {
    Shaped(l, s) && SlotsOk(l, s, 0, 0) && MarksOk(l, s) && SizesOk(s)
  }

  /** Block b is in slot idx of inode i. */
  ghost predicate Names(s: State, i: int, idx: int, b: int) {
    0 <= i < |s.inodes| && 0 <= idx <= INDIRECT && Entry(s.inodes[i], s.blocks, idx) == b
  }

  /** Conservation: a block is marked exactly when it is metadata, in some slot, or pending
      for a process, and then only one of these, in one slot. */
  lemma MarkedIsReached(l: Layout, s: State, b: int)
    requires Ok(l, s) && 0 < b < l.size
    ensures IsUsed(l.FreeMap(), s.blocks, b) <==>
              b < l.datastart || (b in s.owner && s.owner[b].inum < 0) || exists i, idx :: Names(s, i, idx, b)
    ensures forall i, idx, j, jdx :: Names(s, i, idx, b) && Names(s, j, jdx, b) ==>
              i == j && idx == jdx && b >= l.datastart && !(b in s.owner && s.owner[b].inum < 0)
    ensures b in s.owner ==> b >= l.datastart
  {
    assert UsedOk(l, s, b);
    forall i, idx | Names(s, i, idx, b)
      ensures b in s.owner && s.owner[b] == Slot(i, idx) && b >= l.datastart
    {
      assert SlotOk(s, i, idx) && OwnerOk(l, s, b);
    }
    if b in s.owner {
      assert OwnerOk(l, s, b);
      assert s.owner[b].inum >= 0 ==> Names(s, s.owner[b].inum, s.owner[b].idx, b);
    }
  }

  // ----- inodes on disk -----

  /** Block with the copy of inode i on disk. */
  function InodeBlock(l: Layout, i: int): int {
    i / IPB + l.inodestart
  }

  /** The inode in place k of a block: two words of type and links, its size, and its
      block numbers. */
  function InodeAt(b: Block, k: int): Inode
    requires b.Full() && 0 <= k < IPB
  {
    Inode(b.words[IWORDS * k + 2], b.words[IWORDS * k + 3..IWORDS * (k + 1)])
  }

  /** The block with that inode's size and block numbers replaced. */
  function WithInode(b: Block, k: int, ino: Inode): (c: Block)
    requires b.Full() && 0 <= k < IPB && |ino.addrs| == NDIRECT + 1
    ensures c.Full()
    ensures forall w {:trigger c.words[w]} :: 0 <= w < IWORDS * k + 2 || IWORDS * (k + 1) <= w < BWORDS ==>
              c.words[w] == b.words[w]
  {
    Block(b.words[..IWORDS * k + 2] + [ino.size] + ino.addrs + b.words[IWORDS * (k + 1)..])
  }

  lemma WithInodeAt(b: Block, k: int, ino: Inode, j: int)
    requires b.Full() && 0 <= k < IPB && |ino.addrs| == NDIRECT + 1 && 0 <= j < IPB
    ensures InodeAt(WithInode(b, k, ino), j) == if j == k then ino else InodeAt(b, j)
  {
    var c := WithInode(b, k, ino);
    if j == k {
      assert c.words[IWORDS * k + 3..IWORDS * (k + 1)] == ino.addrs;
    } else {
      assert c.words[IWORDS * j + 2] == b.words[IWORDS * j + 2];
      assert c.words[IWORDS * j + 3..IWORDS * (j + 1)] == b.words[IWORDS * j + 3..IWORDS * (j + 1)];
    }
  }

  lemma InodePlace(l: Layout, i: int)
    requires LayoutOk(l) && 0 <= i < l.Inodes()
    ensures l.inodestart <= InodeBlock(l, i) < l.bmapstart && 0 <= i % IPB < IPB
  {
  }

  /** The copy of inode i on disk is right. */
  ghost predicate StoredAt(l: Layout, s: State, i: int)
    requires BlocksOk(l, s.blocks) && 0 <= i < |s.inodes| == l.Inodes()
  {
    InodePlace(l, i);
    InodeAt(s.blocks[InodeBlock(l, i)], i % IPB) == s.inodes[i]
  }

  /** The copies of all inodes on disk are right, as between transactions. */
  ghost predicate Stored(l: Layout, s: State) {
    && BlocksOk(l, s.blocks) && |s.inodes| == l.Inodes()
    && forall i {:trigger StoredAt(l, s, i)} :: 0 <= i < |s.inodes| ==> StoredAt(l, s, i)
  }

  /** The inodes that a disk holds. */
  function InodesOn(l: Layout, blocks: Image): (inodes: seq<Inode>)
    requires BlocksOk(l, blocks)
    ensures |inodes| == l.Inodes()
  {
    seq(l.Inodes(), i requires 0 <= i < l.Inodes() => (InodePlace(l, i); InodeAt(blocks[InodeBlock(l, i)], i % IPB)))
  }

  lemma StoredInodes(l: Layout, s: State)
    requires BlocksOk(l, s.blocks) && |s.inodes| == l.Inodes()
    ensures Stored(l, s) <==> s.inodes == InodesOn(l, s.blocks)
  {
    if Stored(l, s) {
      forall i | 0 <= i < |s.inodes| ensures s.inodes[i] == InodesOn(l, s.blocks)[i] {
        assert StoredAt(l, s, i);
      }
    }
    if s.inodes == InodesOn(l, s.blocks) {
      forall i | 0 <= i < |s.inodes| ensures StoredAt(l, s, i) {
        assert s.inodes[i] == InodesOn(l, s.blocks)[i];
      }
    }
  }

  // ----- an empty disk -----

  lemma ZeroBits(bi: int)
    requires 0 <= bi < BPB
    ensures !BlockBit(ZeroBlock(), bi)
  {
    assert Bytes(ZeroBlock())[bi / 8] == 0;
  }

  /** Zeroed blocks, the first n of them marked in the free map. */
  ghost predicate FirstMarked(l: Layout, blocks: Image, n: int) {
    && BlocksOk(l, blocks) && (forall b {:trigger blocks[b]} :: 0 <= b < l.bmapstart ==> blocks[b] == ZeroBlock())
    && forall b {:trigger IsUsed(l.FreeMap(), blocks, b)} :: 0 <= b < l.size ==>
         (IsUsed(l.FreeMap(), blocks, b) <==> b < n)
  }

  lemma MarkNext(l: Layout, blocks: Image, n: int) returns (blocks': Image)
    requires FirstMarked(l, blocks, n) && 0 <= n < l.size
    ensures FirstMarked(l, blocks', n + 1)
  {
    var m := l.FreeMap();
    blocks' := MarkIn(m, blocks, n, true);
    forall b | 0 <= b < l.size ensures IsUsed(m, blocks', b) <==> b < n + 1 {
      MarkedOne(m, blocks, n, true, b);
      assert IsUsed(m, blocks, b) <==> b < n;
    }
    MarkedOne(m, blocks, n, true, n);
  }

  lemma NoneMarked(l: Layout) returns (blocks: Image)
    requires LayoutOk(l)
    ensures FirstMarked(l, blocks, 0)
  {
    blocks := seq(l.size, b => ZeroBlock());
    forall b | 0 <= b < l.size ensures !IsUsed(l.FreeMap(), blocks, b) {
      ZeroBits(b % BPB);
      assert blocks[BitBlock(l.FreeMap(), b)] == ZeroBlock();
    }
  }

  lemma {:induction false} MarkFirst(l: Layout, n: int) returns (blocks: Image)
    requires LayoutOk(l) && 0 <= n <= l.size
    ensures FirstMarked(l, blocks, n)
    decreases n
  {
    if n == 0 {
      blocks := NoneMarked(l);
    } else {
      blocks := MarkFirst(l, n - 1);
      blocks := MarkNext(l, blocks, n - 1);
    }
  }

  lemma EmptyOk(l: Layout, s: State)
    requires FirstMarked(l, s.blocks, l.datastart) && |s.inodes| == l.Inodes() && s.owner == map[]
    requires forall i :: 0 <= i < |s.inodes| ==> s.inodes[i] == Inode(0, NO_ADDRS)
    ensures Ok(l, s)
  {
    forall i, idx | 0 <= i < |s.inodes| && 0 <= idx <= INDIRECT ensures InodeOk(s, i) && SlotOk(s, i, idx) {
      assert s.inodes[i] == Inode(0, NO_ADDRS);
    }
    forall b | 0 <= b < l.size ensures UsedOk(l, s, b) {
      assert IsUsed(l.FreeMap(), s.blocks, b) <==> b < l.datastart;
    }
    forall i | 0 <= i < |s.inodes| ensures InodeOk(s, i) && MappedTo(s, i, s.inodes[i].size) {
      assert s.inodes[i] == Inode(0, NO_ADDRS);
    }
  }

  /** For every layout there is a disk in order: mkfs's, with all inodes empty and the
      metadata blocks marked. */
  lemma EmptyDisk(l: Layout) returns (s: State)
    requires LayoutOk(l)
    ensures Ok(l, s) && Stored(l, s) && s.owner == map[]
    ensures forall i :: 0 <= i < |s.inodes| ==> s.inodes[i] == Inode(0, NO_ADDRS)
  {
    var blocks := MarkFirst(l, l.datastart);
    s := State(blocks, InodesOn(l, blocks), map[]);
    StoredInodes(l, s);
    forall i | 0 <= i < |s.inodes| ensures s.inodes[i] == Inode(0, NO_ADDRS) {
      InodePlace(l, i);
      assert blocks[InodeBlock(l, i)] == ZeroBlock();
      assert s.inodes[i].addrs == NO_ADDRS;
    }
    EmptyOk(l, s);
  }

  ghost predicate SameInodeBlocks(l: Layout, d: Image, e: Image) {
    |d| == |e| == l.size && forall b {:trigger e[b]} :: 0 <= l.inodestart <= b < l.bmapstart && b < l.size ==>
        e[b] == d[b]
  }

  function InodeWritten(l: Layout, s: State, i: int): State
    requires BlocksOk(l, s.blocks) && 0 <= i < |s.inodes| == l.Inodes() && |s.inodes[i].addrs| == NDIRECT + 1
  {
    InodePlace(l, i);
    State(s.blocks[InodeBlock(l, i) := WithInode(s.blocks[InodeBlock(l, i)], i % IPB, s.inodes[i])], s.inodes, s.owner)
  }

  lemma SamePlace(l: Layout, i: int, k: int)
    requires InodeBlock(l, i) == InodeBlock(l, k)
    ensures i == k <==> i % IPB == k % IPB
  {
  }

  /** iupdate() of the one inode that changed makes all copies right again. */
  lemma StoredAgain(l: Layout, s0: State, s: State, i: int)
    requires Stored(l, s0) && SameInodeBlocks(l, s0.blocks, s.blocks) && Shaped(l, s) && 0 <= i < |s.inodes|
    requires forall k {:trigger s.inodes[k]} :: 0 <= k < |s.inodes| && k != i ==> s.inodes[k] == s0.inodes[k]
    requires |s.inodes[i].addrs| == NDIRECT + 1
    ensures Stored(l, InodeWritten(l, s, i))
  {
    InodePlace(l, i);
    var s', ib := InodeWritten(l, s, i), InodeBlock(l, i);
    forall k | 0 <= k < |s.inodes| ensures StoredAt(l, s', k) {
      InodePlace(l, k);
      assert StoredAt(l, s0, k) && s.blocks[InodeBlock(l, k)] == s0.blocks[InodeBlock(l, k)];
      if InodeBlock(l, k) == ib {
        WithInodeAt(s.blocks[ib], i % IPB, s.inodes[i], k % IPB);
        SamePlace(l, i, k);
      }
    }
  }

  // ----- what may change -----

  ghost predicate SameBlock(s: State, s': State, b: int) {
    0 < b < |s.blocks| && |s'.blocks| == |s.blocks| && s'.blocks[b] == s.blocks[b]
  }

  /** Inode i's mapped slots still hold the same blocks, with the same contents. */
  ghost predicate KeptAt(s: State, s': State, i: int, idx: int)
    requires 0 <= i < |s.inodes| && |s'.inodes| == |s.inodes|
  {
    Entry(s.inodes[i], s.blocks, idx) != 0 ==>
      Entry(s'.inodes[i], s'.blocks, idx) == Entry(s.inodes[i], s.blocks, idx)
          && SameBlock(s, s', Entry(s.inodes[i], s.blocks, idx))
  }

  ghost predicate Kept(s: State, s': State, i: int)
    requires 0 <= i < |s.inodes| && |s'.inodes| == |s.inodes|
  {
    && s'.inodes[i].size == s.inodes[i].size
    && forall idx {:trigger KeptAt(s, s', i, idx)} :: 0 <= idx < MAXFILE ==> KeptAt(s, s', i, idx)
  }

  lemma MappedAt(s: State, i: int, n: int, bn: int)
    requires 0 <= i < |s.inodes| && MappedTo(s, i, n) && 0 <= bn && bn * BSIZE < n
    ensures HasBlock(s, i, bn)
  {
  }

  lemma BlockOf(pos: int, n: int)
    requires 0 <= pos < n <= MAXFILE * BSIZE
    ensures 0 <= pos / BSIZE < MAXFILE && pos / BSIZE * BSIZE < n
  {
  }

  lemma KeptFile(l: Layout, s: State, s': State, i: int)
    requires Ok(l, s) && 0 <= i < |s.inodes| && |s'.inodes| == |s.inodes| && Kept(s, s', i)
    ensures File(s'.inodes[i], s'.blocks) == File(s.inodes[i], s.blocks)
  {
    assert InodeOk(s, i) && MappedTo(s, i, s.inodes[i].size);
    forall pos | 0 <= pos < s.inodes[i].size
      ensures ByteAt(s'.inodes[i], s'.blocks, pos) == ByteAt(s.inodes[i], s.blocks, pos)
    {
      BlockOf(pos, s.inodes[i].size);
      MappedAt(s, i, s.inodes[i].size, pos / BSIZE);
      assert KeptAt(s, s', i, pos / BSIZE);
    }
  }

  lemma KeptTwice(s0: State, s1: State, s2: State, i: int)
    requires 0 <= i < |s0.inodes| == |s1.inodes| == |s2.inodes| && Kept(s0, s1, i) && Kept(s1, s2, i)
    ensures Kept(s0, s2, i)
  {
    forall idx | 0 <= idx < MAXFILE ensures KeptAt(s0, s2, i, idx) {
      assert KeptAt(s0, s1, i, idx) && KeptAt(s1, s2, i, idx);
    }
  }

  // ----- allocation -----

  /** Disk after balloc() took block b: marked, and zeroed. */
  function Taken(l: Layout, blocks: Image, b: int): Image
    requires MapFits(l.FreeMap(), blocks) && 0 <= b < l.size && |blocks| == l.size
  {
    MarkIn(l.FreeMap(), blocks, b, true)[b := ZeroBlock()]
  }

  /** Blocks that matter to the block maps are the same. */
  ghost predicate SameOwned(s: State, blocks': Image) {
    |blocks'| == |s.blocks| && forall b {:trigger blocks'[b]} :: b in s.owner && 0 <= b < |s.blocks| ==>
        blocks'[b] == s.blocks[b]
  }

  lemma SameEntries(l: Layout, s: State, blocks': Image, i: int, idx: int)
    requires Shaped(l, s) && SlotsOk(l, s, 0, 0) && SameOwned(s, blocks') && 0 <= i < |s.inodes|
    ensures Entry(s.inodes[i], blocks', idx) == Entry(s.inodes[i], s.blocks, idx)
  {
    assert InodeOk(s, i) && SlotOk(s, i, INDIRECT);
    var a := s.inodes[i].addrs[NDIRECT];
    if a != 0 {
      assert OwnerOk(l, s, a);
    }
  }

  function WithBlocks(s: State, blocks: Image): State {
    State(blocks, s.inodes, s.owner)
  }

  /** No file's mapped blocks, size or contents changed. */
  ghost predicate AllKept(s: State, s': State) {
    && |s'.inodes| == |s.inodes|
    && forall i {:trigger Kept(s, s', i)} :: 0 <= i < |s.inodes| ==> Kept(s, s', i)
  }

  /** Changing blocks that nothing owns keeps the maps, the sizes and all files. */
  lemma FrameOwned(l: Layout, s: State, blocks': Image)
    requires Shaped(l, s) && SlotsOk(l, s, 0, 0) && SizesOk(s) && SameOwned(s, blocks')
    requires BlocksOk(l, blocks')
    ensures Shaped(l, WithBlocks(s, blocks')) && SlotsOk(l, WithBlocks(s, blocks'), 0, 0)
    ensures SizesOk(WithBlocks(s, blocks'))
    ensures AllKept(s, WithBlocks(s, blocks'))
  {
    var s' := WithBlocks(s, blocks');
    forall i, idx | 0 <= i < |s.inodes|
      ensures Entry(s.inodes[i], blocks', idx) == Entry(s.inodes[i], s.blocks, idx)
    {
      SameEntries(l, s, blocks', i, idx);
    }
    forall i | 0 <= i < |s.inodes| ensures InodeOk(s', i) {
      assert InodeOk(s, i);
    }
    forall k, idx | 0 <= k < |s.inodes| && 0 <= idx <= INDIRECT ensures SlotOk(s', k, idx) {
      assert SlotOk(s, k, idx);
    }
    forall b | b in s.owner ensures OwnerOk(l, s', b) {
      assert OwnerOk(l, s, b);
    }
    forall i | 0 <= i < |s.inodes| ensures MappedTo(s', i, s'.inodes[i].size) && Kept(s, s', i) {
      assert MappedTo(s, i, s.inodes[i].size);
      forall bn | 0 <= bn && bn * BSIZE < s.inodes[i].size ensures HasBlock(s', i, bn) {
        MappedAt(s, i, s.inodes[i].size, bn);
      }
      forall idx | 0 <= idx < MAXFILE ensures KeptAt(s, s', i, idx) {
        assert SlotOk(s, i, idx);
        var a := Entry(s.inodes[i], s.blocks, idx);
        assert a != 0 ==> OwnerOk(l, s, a);
      }
    }
  }

  /** Writing a block of inodes changes no file and no mark. */
  lemma MetaStep(l: Layout, s: State, b: int, data: Block)
    requires Ok(l, s) && l.inodestart <= b < l.bmapstart && data.Full()
    ensures Ok(l, WithBlocks(s, s.blocks[b := data])) && SameOwned(s, s.blocks[b := data])
    ensures forall i {:trigger File(s.inodes[i], s.blocks[b := data])} :: 0 <= i < |s.inodes| ==>
              File(s.inodes[i], s.blocks[b := data]) == File(s.inodes[i], s.blocks)
  {
    var s' := WithBlocks(s, s.blocks[b := data]);
    forall c | c in s.owner && 0 <= c < |s.blocks| ensures s'.blocks[c] == s.blocks[c] {
      assert OwnerOk(l, s, c);
    }
    FrameOwned(l, s, s'.blocks);
    forall c | 0 <= c < l.size ensures UsedOk(l, s', c) {
      assert UsedOk(l, s, c);
    }
    forall i | 0 <= i < |s.inodes| ensures File(s.inodes[i], s'.blocks) == File(s.inodes[i], s.blocks) {
      assert Kept(s, s', i);
      KeptFile(l, s, s', i);
    }
  }

  /** The marks and the other blocks after balloc() took block b. */
  lemma TakenBlocks(l: Layout, s: State, b: int)
    requires Ok(l, s) && l.datastart <= b < l.size
    ensures BlocksOk(l, Taken(l, s.blocks, b)) && SameInodeBlocks(l, s.blocks, Taken(l, s.blocks, b))
    ensures forall c {:trigger IsUsed(l.FreeMap(), Taken(l, s.blocks, b), c)} :: 0 <= c < l.size ==>
              (IsUsed(l.FreeMap(), Taken(l, s.blocks, b), c) <==> c == b || IsUsed(l.FreeMap(), s.blocks, c))
    ensures forall c {:trigger Taken(l, s.blocks, b)[c]} :: l.datastart <= c < l.size && c != b ==>
              Taken(l, s.blocks, b)[c] == s.blocks[c]
  {
    var m := l.FreeMap();
    assert BitBlock(m, b) <= l.bmapstart + (l.size - 1) / BPB < l.datastart;
    MarkedOne(m, s.blocks, b, true, b);
    forall c | 0 <= c < l.size
      ensures IsUsed(m, Taken(l, s.blocks, b), c) <==> c == b || IsUsed(m, s.blocks, c)
    {
      MarkedOne(m, s.blocks, b, true, c);
      assert BitBlock(m, c) != b;
    }
  }

  /** After balloc() took block b for a process. */
  function TakenBy(l: Layout, s: State, b: int, proc: nat): State
    requires MapFits(l.FreeMap(), s.blocks) && 0 <= b < l.size && |s.blocks| == l.size
  {
    State(Taken(l, s.blocks, b), s.inodes, s.owner[b := Pending(proc)])
  }

  /** Noting that the block is pending. */
  lemma PendingOk(l: Layout, s: State, t: State, b: int, proc: nat)
    requires Ok(l, s) && b !in s.owner && l.datastart <= b < l.size && t.owner == s.owner && t.inodes == s.inodes
    requires Shaped(l, t) && SlotsOk(l, t, 0, 0) && SizesOk(t) && AllKept(s, t) && t.blocks[b] == ZeroBlock()
    requires forall c {:trigger IsUsed(l.FreeMap(), t.blocks, c)} :: 0 <= c < l.size ==>
               (IsUsed(l.FreeMap(), t.blocks, c) <==> c == b || IsUsed(l.FreeMap(), s.blocks, c))
    ensures Ok(l, State(t.blocks, t.inodes, t.owner[b := Pending(proc)]))
    ensures AllKept(s, State(t.blocks, t.inodes, t.owner[b := Pending(proc)]))
  {
    var u := State(t.blocks, t.inodes, t.owner[b := Pending(proc)]);
    forall i | 0 <= i < |u.inodes| ensures InodeOk(u, i) && MappedTo(u, i, u.inodes[i].size) && Kept(s, u, i) {
      assert InodeOk(t, i) && MappedTo(t, i, t.inodes[i].size) && Kept(s, t, i);
      forall bn | 0 <= bn && bn * BSIZE < u.inodes[i].size ensures HasBlock(u, i, bn) {
        MappedAt(t, i, t.inodes[i].size, bn);
      }
      forall idx | 0 <= idx < MAXFILE ensures KeptAt(s, u, i, idx) {
        assert KeptAt(s, t, i, idx);
      }
    }
    forall i, idx | 0 <= i < |u.inodes| && 0 <= idx <= INDIRECT ensures SlotOk(u, i, idx) {
      assert SlotOk(t, i, idx);
    }
    forall c | c in u.owner ensures OwnerOk(l, u, c) {
      assert c != b ==> OwnerOk(l, t, c);
    }
    forall c | 0 <= c < l.size ensures UsedOk(l, u, c) {
      assert UsedOk(l, s, c);
    }
  }

  /** balloc() takes a block that nothing owns, and every file stays. */
  lemma TakeStep(l: Layout, s: State, b: int, proc: nat)
    requires Ok(l, s) && 0 <= b < l.size && !IsUsed(l.FreeMap(), s.blocks, b)
    ensures b > 0 && b !in s.owner && Ok(l, TakenBy(l, s, b, proc)) && AllKept(s, TakenBy(l, s, b, proc))
    ensures SameOwned(s, Taken(l, s.blocks, b)) && SameInodeBlocks(l, s.blocks, Taken(l, s.blocks, b))
  {
    assert UsedOk(l, s, b);
    TakenBlocks(l, s, b);
    var blocks' := Taken(l, s.blocks, b);
    forall c | c in s.owner && 0 <= c < |s.blocks| ensures blocks'[c] == s.blocks[c] {
      assert OwnerOk(l, s, c);
    }
    FrameOwned(l, s, blocks');
    PendingOk(l, s, WithBlocks(s, blocks'), b, proc);
  }

  // ----- giving a block to a slot -----

  ghost predicate EntryIs(s: State, s': State, i: int, idx: int, b: int, k: int, j: int)
    requires 0 <= k < |s.inodes| == |s'.inodes|
  {
    Entry(s'.inodes[k], s'.blocks, j) == if k == i && j == idx then b else Entry(s.inodes[k], s.blocks, j)
  }

  /** Slot idx of inode i now names block b; no other slot, size or mark changed. */
  ghost predicate Assigned(l: Layout, s: State, s': State, i: int, idx: int, b: int) {
    && Shaped(l, s) && Shaped(l, s') && |s.inodes| == |s'.inodes| && 0 <= i < |s.inodes|
    && 0 <= idx <= INDIRECT
    && (forall k {:trigger s'.inodes[k]} :: 0 <= k < |s.inodes| ==> s'.inodes[k].size == s.inodes[k].size)
    && (forall k, j {:trigger EntryIs(s, s', i, idx, b, k, j)} :: 0 <= k < |s.inodes| && 0 <= j <= INDIRECT ==>
         EntryIs(s, s', i, idx, b, k, j))
    && (forall c {:trigger IsUsed(l.FreeMap(), s'.blocks, c)} :: 0 <= c < l.size ==>
         (IsUsed(l.FreeMap(), s'.blocks, c) <==> IsUsed(l.FreeMap(), s.blocks, c)))
  }

  /** Attaching a pending block to an empty slot keeps the invariant. */
  lemma Attach(l: Layout, s: State, s': State, i: int, idx: int, b: int)
    requires Assigned(l, s, s', i, idx, b) && Ok(l, s) && b in s.owner && s.owner[b].inum < 0
    requires s'.owner == s.owner[b := Slot(i, idx)] && Entry(s.inodes[i], s.blocks, idx) == 0
    requires forall c {:trigger s'.blocks[c]} :: c in s.owner && s.owner[c].inum < 0 && 0 <= c < l.size ==>
               s'.blocks[c] == s.blocks[c]
    ensures Ok(l, s')
  {
    forall k, j | 0 <= k < |s'.inodes| && 0 <= j <= INDIRECT ensures SlotOk(s', k, j) {
      assert SlotOk(s, k, j) && EntryIs(s, s', i, idx, b, k, j);
    }
    assert OwnerOk(l, s, b);
    forall c | c in s'.owner ensures OwnerOk(l, s', c) {
      assert c != b ==> OwnerOk(l, s, c);
      assert s'.owner[c].inum >= 0 ==> EntryIs(s, s', i, idx, b, s'.owner[c].inum, s'.owner[c].idx);
    }
    forall c | 0 <= c < l.size ensures UsedOk(l, s', c) {
      assert UsedOk(l, s, c);
    }
    forall k | 0 <= k < |s'.inodes| ensures MappedTo(s', k, s'.inodes[k].size) {
      assert MappedTo(s, k, s.inodes[k].size) && InodeOk(s, k);
      forall bn | 0 <= bn && bn * BSIZE < s'.inodes[k].size ensures HasBlock(s', k, bn) {
        MappedAt(s, k, s.inodes[k].size, bn);
        assert EntryIs(s, s', i, idx, b, k, bn);
      }
    }
  }

  function SetAddr(s: State, i: int, k: int, b: int): State
    requires 0 <= i < |s.inodes| && 0 <= k < |s.inodes[i].addrs|
  {
    State(s.blocks, s.inodes[i := Inode(s.inodes[i].size, s.inodes[i].addrs[k := b])],
          s.owner[b := Slot(i, if k == NDIRECT then INDIRECT else k)])
  }

  /** Storing a fresh block in ip->addrs[k]. */
  lemma AttachAddr(l: Layout, s: State, i: int, k: int, b: int)
    requires Ok(l, s) && b in s.owner && s.owner[b].inum < 0
    requires 0 <= i < |s.inodes| && 0 <= k <= NDIRECT
    requires |s.inodes[i].addrs| == NDIRECT + 1 && s.inodes[i].addrs[k] == 0
    ensures Ok(l, SetAddr(s, i, k, b)) && AllKept(s, SetAddr(s, i, k, b))
  {
    var s', idx := SetAddr(s, i, k, b), if k == NDIRECT then INDIRECT else k;
    assert OwnerOk(l, s, b);
    forall j | 0 <= j < |s.inodes| ensures InodeOk(s', j) {
      assert InodeOk(s, j);
    }
    forall j, h | 0 <= j < |s.inodes| && 0 <= h <= INDIRECT ensures EntryIs(s, s', i, idx, b, j, h) {
      assert InodeOk(s, j);
    }
    Attach(l, s, s', i, idx, b);
    forall j | 0 <= j < |s.inodes| ensures Kept(s, s', j) {
      forall h | 0 <= h < MAXFILE ensures KeptAt(s, s', j, h) {
        assert EntryIs(s, s', i, idx, b, j, h) && SlotOk(s, j, h);
        assert Entry(s.inodes[j], s.blocks, h) != 0 ==> OwnerOk(l, s, Entry(s.inodes[j], s.blocks, h));
      }
    }
  }

  function SetWord(s: State, a: int, w: int, b: int, i: int): State
    requires 0 <= a < |s.blocks| && 0 <= w < |s.blocks[a].words|
  {
    State(s.blocks[a := Block(s.blocks[a].words[w := b])], s.inodes, s.owner[b := Slot(i, NDIRECT + w)])
  }

  /** Storing a fresh block in the indirect block a of inode i. */
  lemma AttachWord(l: Layout, s: State, i: int, w: int, b: int)
    requires Ok(l, s) && b in s.owner && s.owner[b].inum < 0
    requires 0 <= i < |s.inodes| && 0 <= w < NINDIRECT
    requires Entry(s.inodes[i], s.blocks, INDIRECT) != 0
    requires Entry(s.inodes[i], s.blocks, NDIRECT + w) == 0
    ensures l.datastart <= s.inodes[i].addrs[NDIRECT] < |s.blocks|
    ensures s.blocks[s.inodes[i].addrs[NDIRECT]].Full()
    ensures Ok(l, SetWord(s, s.inodes[i].addrs[NDIRECT], w, b, i))
    ensures AllKept(s, SetWord(s, s.inodes[i].addrs[NDIRECT], w, b, i))
  {
    var a := s.inodes[i].addrs[NDIRECT];
    assert InodeOk(s, i) && SlotOk(s, i, INDIRECT) && OwnerOk(l, s, a);
    assert s.blocks[a].Full();
    var s' := SetWord(s, a, w, b, i);
    forall j | 0 <= j < |s.inodes| ensures InodeOk(s', j) {
      assert InodeOk(s, j);
    }
    forall c | 0 <= c < l.size
      ensures IsUsed(l.FreeMap(), s'.blocks, c) <==> IsUsed(l.FreeMap(), s.blocks, c)
    {
      assert BitBlock(l.FreeMap(), c) <= l.bmapstart + (l.size - 1) / BPB;
    }
    var idx := NDIRECT + w;
    forall j, h | 0 <= j < |s.inodes| && 0 <= h <= INDIRECT ensures EntryIs(s, s', i, idx, b, j, h) {
      assert InodeOk(s, j) && SlotOk(s, j, INDIRECT);
    }
    Attach(l, s, s', i, NDIRECT + w, b);
    forall j | 0 <= j < |s.inodes| ensures Kept(s, s', j) {
      forall h | 0 <= h < MAXFILE ensures KeptAt(s, s', j, h) {
        assert EntryIs(s, s', i, idx, b, j, h) && SlotOk(s, j, h);
        assert Entry(s.inodes[j], s.blocks, h) != 0 ==> OwnerOk(l, s, Entry(s.inodes[j], s.blocks, h));
      }
    }
  }

  // ----- freeing -----

  /** After bfree(b): the mark and the owner are gone. */
  lemma FreeStep(l: Layout, s: State, b: int)
    requires Shaped(l, s) && MarksOk(l, s) && b in s.owner && l.datastart <= b < l.size
    ensures MapFits(l.FreeMap(), MarkIn(l.FreeMap(), s.blocks, b, false))
    ensures MarksOk(l, State(MarkIn(l.FreeMap(), s.blocks, b, false), s.inodes, s.owner - {b}))
    ensures IsUsed(l.FreeMap(), s.blocks, b)
    ensures forall c {:trigger MarkIn(l.FreeMap(), s.blocks, b, false)[c]} :: l.datastart <= c < l.size ==>
              MarkIn(l.FreeMap(), s.blocks, b, false)[c] == s.blocks[c]
    ensures SameInodeBlocks(l, s.blocks, MarkIn(l.FreeMap(), s.blocks, b, false))
  {
    var m := l.FreeMap();
    var s' := State(MarkIn(m, s.blocks, b, false), s.inodes, s.owner - {b});
    MarkedOne(m, s.blocks, b, false, b);
    assert UsedOk(l, s, b);
    assert BitBlock(m, b) <= l.bmapstart + (l.size - 1) / BPB < l.datastart;
    forall c | 0 <= c < l.size ensures UsedOk(l, s', c) {
      MarkedOne(m, s.blocks, b, false, c);
      assert UsedOk(l, s, c);
    }
  }

  // ----- what an operation logs -----

  predicate InFreeMap(l: Layout, b: int) {
    l.bmapstart <= b <= l.bmapstart + (l.size - 1) / BPB
  }

  /** b is a block of inode i among block indices lo .. hi - 1, or its indirect block, or
      a free-map block, or the block of the inode itself. */
  ghost predicate InTx(l: Layout, s: State, i: int, lo: int, hi: int, b: int)
    requires 0 <= i < |s.inodes|
  {
    || b == InodeBlock(l, i) || InFreeMap(l, b)
    || (b != 0 && b == Entry(s.inodes[i], s.blocks, INDIRECT))
    || (b != 0 && exists bn {:trigger Entry(s.inodes[i], s.blocks, bn)} ::
        lo <= bn < hi && b == Entry(s.inodes[i], s.blocks, bn))
  }

  /** Every block that changed is among those logged, none of which is forgotten. */
  ghost predicate Covered(blocks0: Image, blocks: Image, logged0: set<int>, logged: set<int>) {
    && |blocks| == |blocks0| && logged0 <= logged
    && forall b {:trigger blocks[b]} :: 0 <= b < |blocks| && blocks[b] != blocks0[b] ==> b in logged
  }

  lemma CoveredTwice(b0: Image, b1: Image, b2: Image, l0: set<int>, l1: set<int>, l2: set<int>)
    requires Covered(b0, b1, l0, l1) && Covered(b1, b2, l1, l2)
    ensures Covered(b0, b2, l0, l2)
  {
    forall b | 0 <= b < |b2| && b2[b] != b0[b] ensures b in l2 {
      assert b1[b] != b0[b] ==> b in l1;
    }
  }

  /** All that was logged since `logged0` is of this kind. */
  ghost predicate TxOnly(l: Layout, s: State, i: int, lo: int, hi: int, logged0: set<int>, logged: set<int>)
    requires 0 <= i < |s.inodes|
  {
    forall b {:trigger InTx(l, s, i, lo, hi, b)} :: b in logged && b !in logged0 ==> InTx(l, s, i, lo, hi, b)
  }

  /** Slots that were mapped stay, so what was allowed stays allowed. */
  ghost predicate IndirectKept(s: State, s': State, i: int)
    requires 0 <= i < |s.inodes| == |s'.inodes|
  {
    Entry(s.inodes[i], s.blocks, INDIRECT) != 0 ==>
        Entry(s'.inodes[i], s'.blocks, INDIRECT) == Entry(s.inodes[i], s.blocks, INDIRECT)
  }

  lemma TxMore(l: Layout, s: State, s': State, i: int, lo: int, hi: int, hi': int, logged0: set<int>,
               logged1: set<int>, logged2: set<int>)
    requires 0 <= i < |s.inodes| == |s'.inodes| && Kept(s, s', i) && IndirectKept(s, s', i) && 0 <= lo
    requires hi <= hi' <= MAXFILE
    requires TxOnly(l, s, i, lo, hi, logged0, logged1) && TxOnly(l, s', i, lo, hi', logged1, logged2)
    ensures TxOnly(l, s', i, lo, hi', logged0, logged2)
  {
    forall b | b in logged2 && b !in logged0 ensures InTx(l, s', i, lo, hi', b) {
      if b in logged1 {
        assert InTx(l, s, i, lo, hi, b);
        if b != InodeBlock(l, i) && !InFreeMap(l, b) && b != Entry(s.inodes[i], s.blocks, INDIRECT) {
          var bn :| lo <= bn < hi && b == Entry(s.inodes[i], s.blocks, bn);
          assert KeptAt(s, s', i, bn);
          assert b == Entry(s'.inodes[i], s'.blocks, bn);
        }
      }
    }
  }

  lemma {:induction false} SetOfSeq(s: set<int>, q: seq<int>)
    requires forall b :: b in s ==> b in q
    ensures |s| <= |q|
  {
    if q == [] {
      assert (forall b :: b !in s) ==> s == {};
    } else {
      var rest := s - {q[0]};
      forall b | b in rest ensures b in q[1..] {
      }
      SetOfSeq(rest, q[1..]);
      assert |rest| >= |s| - 1 by {
        if q[0] in s {
          assert s == rest + {q[0]};
        } else {
          assert s == rest;
        }
      }
    }
  }

  /** With a one-block free map, a write across at most four block indices logs at most
      seven blocks. */
  lemma SevenBlocks(l: Layout, s: State, i: int, lo: int, hi: int, logged: set<int>)
    requires 0 <= i < |s.inodes| && hi <= lo + 4 && l.size <= BPB && LayoutOk(l)
    requires TxOnly(l, s, i, lo, hi, {}, logged)
    ensures |logged| <= 7
  {
    var e := s.inodes[i];
    var all := [Entry(e, s.blocks, lo), Entry(e, s.blocks, lo + 1), Entry(e, s.blocks, lo + 2),
                Entry(e, s.blocks, lo + 3),
                Entry(e, s.blocks, INDIRECT), InodeBlock(l, i), l.bmapstart];
    forall b | b in logged ensures b in all {
      assert InTx(l, s, i, lo, hi, b);
      if b != all[4] && b != all[5] && !InFreeMap(l, b) {
        var bn :| lo <= bn < hi && b == Entry(e, s.blocks, bn);
        assert b == all[bn - lo];
      } else {
        assert all[4] in all && all[5] in all && all[6] in all;
      }
    }
    SetOfSeq(logged, all);
  }

  // ----- the operations -----

  /** Owners were only added, all for inode i. */
  ghost predicate OwnersGrew(s: State, s': State, i: int) {
    && (forall b {:trigger s'.owner[b]} {:trigger b in s'.owner} :: b in s.owner ==>
         b in s'.owner && s'.owner[b] == s.owner[b])
    && (forall b {:trigger b in s'.owner} :: b in s'.owner && b !in s.owner ==> s'.owner[b].inum == i)
  }

  /** What bmap() does: only slots of inode i that were empty may get blocks. */
  ghost predicate Extended(l: Layout, s: State, s': State, i: int) {
    && Ok(l, s') && AllKept(s, s') && 0 <= i < |s.inodes| && IndirectKept(s, s', i)
    && OwnersGrew(s, s', i) && SameInodeBlocks(l, s.blocks, s'.blocks)
    && (forall k {:trigger s'.inodes[k]} :: 0 <= k < |s.inodes| && k != i ==> s'.inodes[k] == s.inodes[k])
  }

  lemma ExtendedTwice(l: Layout, s0: State, s1: State, s2: State, i: int)
    requires Extended(l, s0, s1, i) && Extended(l, s1, s2, i)
    ensures Extended(l, s0, s2, i)
  {
    forall b | b in s0.owner ensures b in s2.owner && s2.owner[b] == s0.owner[b] {
      assert b in s1.owner && s1.owner[b] == s0.owner[b];
    }
    forall b | b in s2.owner && b !in s0.owner ensures s2.owner[b].inum == i {
      assert b in s1.owner ==> s2.owner[b] == s1.owner[b];
    }
    forall k | 0 <= k < |s0.inodes| ensures Kept(s0, s2, k) {
      KeptTwice(s0, s1, s2, k);
    }
  }

  // ----- writing -----

  function Max(a: int, b: int): int {
    if a < b then b else a
  }

  function DataWritten(s: State, a: int, page: seq<int>): State
    requires 0 <= a < |s.blocks| && IsPage(page)
  {
    State(s.blocks[a := Pack(page)], s.inodes, s.owner)
  }

  lemma DataOk(l: Layout, s: State, i: int, bn: int, s': State, a: int)
    requires Ok(l, s) && 0 <= i < |s.inodes| && 0 <= bn < MAXFILE
    requires a == Entry(s.inodes[i], s.blocks, bn) && l.datastart <= a < l.size
    requires |s'.blocks| == |s.blocks| && s'.inodes == s.inodes && s'.owner == s.owner
    requires s'.blocks[a].Full()
    requires forall b :: 0 <= b < |s.blocks| && b != a ==> s'.blocks[b] == s.blocks[b]
    requires forall k, j {:trigger Entry(s.inodes[k], s'.blocks, j)} :: 0 <= k < |s.inodes| && 0 <= j <= INDIRECT ==>
               Entry(s.inodes[k], s'.blocks, j) == Entry(s.inodes[k], s.blocks, j)
    ensures Ok(l, s')
  {
    forall k | 0 <= k < |s.inodes| ensures InodeOk(s', k) {
      assert InodeOk(s, k);
    }
    forall k, j | 0 <= k < |s.inodes| && 0 <= j <= INDIRECT ensures SlotOk(s', k, j) {
      assert SlotOk(s, k, j);
    }
    assert SlotOk(s, i, bn);
    forall b | b in s.owner ensures OwnerOk(l, s', b) {
      assert OwnerOk(l, s, b);
    }
    forall c | 0 <= c < l.size ensures UsedOk(l, s', c) {
      assert UsedOk(l, s, c);
      assert BitBlock(l.FreeMap(), c) <= l.bmapstart + (l.size - 1) / BPB;
    }
    forall k | 0 <= k < |s.inodes| ensures MappedTo(s', k, s'.inodes[k].size) {
      assert MappedTo(s, k, s.inodes[k].size) && InodeOk(s, k);
      forall b | 0 <= b && b * BSIZE < s.inodes[k].size ensures HasBlock(s', k, b) {
        MappedAt(s, k, s.inodes[k].size, b);
      }
    }
  }

  /** Writing the block at index bn of inode i: all maps stay, other files keep their
      contents, and inode i reads the new bytes there. */
  lemma DataStep(l: Layout, s: State, i: int, bn: int, page: seq<int>)
    requires Ok(l, s) && 0 <= i < |s.inodes| && 0 <= bn < MAXFILE && HasBlock(s, i, bn) && IsPage(page)
    ensures l.datastart <= Entry(s.inodes[i], s.blocks, bn) < |s.blocks|
    ensures Ok(l, DataWritten(s, Entry(s.inodes[i], s.blocks, bn), page))
    ensures forall k, j
              {:trigger Entry(s.inodes[k], DataWritten(s, Entry(s.inodes[i], s.blocks, bn), page).blocks, j)} ::
              0 <= k < |s.inodes| && 0 <= j <= INDIRECT ==>
                Entry(s.inodes[k], DataWritten(s, Entry(s.inodes[i], s.blocks, bn), page).blocks, j) ==
                    Entry(s.inodes[k], s.blocks, j)
    ensures forall k {:trigger Kept(s, DataWritten(s, Entry(s.inodes[i], s.blocks, bn), page), k)} ::
              0 <= k < |s.inodes| && k != i ==> Kept(s, DataWritten(s, Entry(s.inodes[i], s.blocks, bn), page), k)
    ensures forall pos
              {:trigger ByteAt(s.inodes[i], DataWritten(s, Entry(s.inodes[i], s.blocks, bn), page).blocks, pos)} ::
              0 <= pos < MAXFILE * BSIZE ==>
                ByteAt(s.inodes[i], DataWritten(s, Entry(s.inodes[i], s.blocks, bn), page).blocks, pos)
                == if pos / BSIZE == bn then page[pos % BSIZE] else ByteAt(s.inodes[i], s.blocks, pos)
  {
    var a := Entry(s.inodes[i], s.blocks, bn);
    assert SlotOk(s, i, bn) && OwnerOk(l, s, a);
    var s' := DataWritten(s, a, page);
    BytesPack(page);
    forall k, j | 0 <= k < |s.inodes| && 0 <= j <= INDIRECT
      ensures Entry(s.inodes[k], s'.blocks, j) == Entry(s.inodes[k], s.blocks, j)
    {
      assert InodeOk(s, k) && SlotOk(s, k, INDIRECT);
    }
    DataOk(l, s, i, bn, s', a);
    forall k | 0 <= k < |s.inodes| && k != i ensures Kept(s, s', k) {
      forall j | 0 <= j < MAXFILE ensures KeptAt(s, s', k, j) {
        assert SlotOk(s, k, j);
        assert Entry(s.inodes[k], s.blocks, j) != 0 ==> OwnerOk(l, s, Entry(s.inodes[k], s.blocks, j));
      }
    }
    forall pos | 0 <= pos < MAXFILE * BSIZE
      ensures ByteAt(s.inodes[i], s'.blocks, pos) == if pos / BSIZE == bn then page[pos % BSIZE]
                else ByteAt(s.inodes[i], s.blocks, pos)
    {
      assert SlotOk(s, i, pos / BSIZE);
    }
  }

  ghost predicate ByteIs(s0: State, s: State, i: int, off: int, data: seq<int>, tot: int, pos: int)
    requires 0 <= i < |s0.inodes| == |s.inodes| && 0 <= tot <= |data|
  {
    ByteAt(s.inodes[i], s.blocks, pos) == if off <= pos < off + tot then data[pos - off]
        else ByteAt(s0.inodes[i], s0.blocks, pos)
  }

  /** The loop of writei() has written `tot` bytes of data at off. */
  ghost predicate Writing(l: Layout, s0: State, s: State, i: int, off: int, data: seq<int>, tot: int) {
    && Ok(l, s0) && Ok(l, s) && 0 <= i < |s0.inodes| == |s.inodes| && 0 <= tot <= |data|
    && 0 <= off <= s0.inodes[i].size && off + |data| <= MAXFILE * BSIZE
    && s.inodes[i].size == s0.inodes[i].size && OwnersGrew(s0, s, i) && IndirectKept(s0, s, i)
    && SameInodeBlocks(l, s0.blocks, s.blocks)
    && (forall k {:trigger s.inodes[k]} :: 0 <= k < |s0.inodes| && k != i ==>
         s.inodes[k] == s0.inodes[k] && Kept(s0, s, k))
    && MappedTo(s, i, Max(s0.inodes[i].size, off + tot))
    && (forall pos {:trigger ByteIs(s0, s, i, off, data, tot, pos)} :: 0 <= pos < Max(s0.inodes[i].size, off + tot) ==>
         ByteIs(s0, s, i, off, data, tot, pos))
  }

  lemma WritingNothing(l: Layout, s: State, i: int, off: int, data: seq<int>)
    requires Ok(l, s) && 0 <= i < |s.inodes| && 0 <= off <= s.inodes[i].size
    requires off + |data| <= MAXFILE * BSIZE
    ensures Writing(l, s, s, i, off, data, 0)
  {
    assert MappedTo(s, i, s.inodes[i].size);
    forall k | 0 <= k < |s.inodes| ensures Kept(s, s, k) {
      forall h | 0 <= h < MAXFILE ensures KeptAt(s, s, k, h) {
        assert SlotOk(s, k, h);
        assert Entry(s.inodes[k], s.blocks, h) != 0 ==> OwnerOk(l, s, Entry(s.inodes[k], s.blocks, h));
      }
    }
    forall pos | 0 <= pos < s.inodes[i].size ensures ByteIs(s, s, i, off, data, 0, pos) {
    }
  }

  lemma OwnersTwice(s0: State, s1: State, s2: State, i: int)
    requires OwnersGrew(s0, s1, i) && OwnersGrew(s1, s2, i)
    ensures OwnersGrew(s0, s2, i)
  {
    forall b | b in s0.owner ensures b in s2.owner && s2.owner[b] == s0.owner[b] {
      assert b in s1.owner && s1.owner[b] == s0.owner[b];
    }
    forall b | b in s2.owner && b !in s0.owner ensures s2.owner[b].inum == i {
      assert b in s1.owner ==> s2.owner[b] == s1.owner[b];
    }
  }

  /** bmap() inside the loop changes no byte and unmaps nothing. */
  lemma WritingMapped(l: Layout, s0: State, s: State, s': State, i: int, off: int, data: seq<int>, tot: int)
    requires Writing(l, s0, s, i, off, data, tot) && Extended(l, s, s', i)
    ensures Writing(l, s0, s', i, off, data, tot)
  {
    forall k | 0 <= k < |s0.inodes| && k != i ensures s'.inodes[k] == s0.inodes[k] && Kept(s0, s', k) {
      assert s.inodes[k] == s0.inodes[k];
      KeptTwice(s0, s, s', k);
    }
    var n := Max(s0.inodes[i].size, off + tot);
    assert InodeOk(s0, i) && Kept(s, s', i) && n <= MAXFILE * BSIZE;
    forall bn | 0 <= bn && bn * BSIZE < n ensures HasBlock(s', i, bn) {
      MappedAt(s, i, n, bn);
      assert bn < MAXFILE && KeptAt(s, s', i, bn);
    }
    forall pos | 0 <= pos < n ensures ByteIs(s0, s', i, off, data, tot, pos) {
      assert ByteIs(s0, s, i, off, data, tot, pos);
      BlockOf(pos, n);
      MappedAt(s, i, n, pos / BSIZE);
      assert KeptAt(s, s', i, pos / BSIZE);
    }
    OwnersTwice(s0, s, s', i);
  }

  /** A page with m bytes of data from position tot put in at offset o. */
  function PageWith(page: seq<int>, o: int, data: seq<int>, tot: int, m: int): seq<int>
    requires |page| == BSIZE && 0 <= o && 0 <= m && o + m <= BSIZE && 0 <= tot && tot + m <= |data|
  {
    page[..o] + data[tot..tot + m] + page[o + m..]
  }

  lemma WrittenByte(l: Layout, s0: State, s: State, s': State, i: int, off: int, data: seq<int>, tot: int,
                    m: int, page: seq<int>, pos: int)
    requires 0 <= i < |s0.inodes| == |s.inodes| == |s'.inodes| && 0 <= off && 0 <= tot < |data| && 0 < m
    requires tot + m <= |data|
    requires (off + tot) % BSIZE + m <= BSIZE && 0 <= pos < Max(s0.inodes[i].size, off + tot + m)
    requires IsPage(page)
    requires 0 < Entry(s.inodes[i], s.blocks, (off + tot) / BSIZE) < |s.blocks|
    requires s.blocks[Entry(s.inodes[i], s.blocks, (off + tot) / BSIZE)].Full()
    requires page == PageWith(Bytes(s.blocks[Entry(s.inodes[i], s.blocks, (off + tot) / BSIZE)]), (off + tot) % BSIZE,
                              data, tot, m)
    requires pos < Max(s0.inodes[i].size, off + tot) ==> ByteIs(s0, s, i, off, data, tot, pos)
    requires ByteAt(s'.inodes[i], s'.blocks, pos) == if pos / BSIZE == (off + tot) / BSIZE then page[pos % BSIZE]
               else ByteAt(s.inodes[i], s.blocks, pos)
    ensures ByteIs(s0, s', i, off, data, tot + m, pos)
  {
    var bn, o := (off + tot) / BSIZE, (off + tot) % BSIZE;
    assert off + tot == bn * BSIZE + o;
    var pb, po := pos / BSIZE, pos % BSIZE;
    assert pos == pb * BSIZE + po;
    if pb == bn {
      assert page[po] == if o <= po < o + m then data[tot + (po - o)]
          else Bytes(s.blocks[Entry(s.inodes[i], s.blocks, bn)])[po];
    }
  }

  /** One turn of writei()'s loop after bmap(). */
  lemma WritingMore(l: Layout, s0: State, s: State, i: int, off: int, data: seq<int>, tot: int, m: int,
                    page: seq<int>)
    requires Writing(l, s0, s, i, off, data, tot) && tot < |data|
    requires HasBlock(s, i, (off + tot) / BSIZE)
    requires 0 < m && tot + m <= |data| && (off + tot) % BSIZE + m <= BSIZE && IsPage(page)
    requires 0 < Entry(s.inodes[i], s.blocks, (off + tot) / BSIZE) < |s.blocks|
    requires s.blocks[Entry(s.inodes[i], s.blocks, (off + tot) / BSIZE)].Full()
    requires page == PageWith(Bytes(s.blocks[Entry(s.inodes[i], s.blocks, (off + tot) / BSIZE)]), (off + tot) % BSIZE,
                              data, tot, m)
    ensures Writing(l, s0, DataWritten(s, Entry(s.inodes[i], s.blocks, (off + tot) / BSIZE), page), i, off, data,
                    tot + m)
  {
    var bn, o := (off + tot) / BSIZE, (off + tot) % BSIZE;
    var a := Entry(s.inodes[i], s.blocks, bn);
    var s' := DataWritten(s, a, page);
    DataStep(l, s, i, bn, page);
    forall k | 0 <= k < |s0.inodes| && k != i ensures s'.inodes[k] == s0.inodes[k] && Kept(s0, s', k) {
      assert s.inodes[k] == s0.inodes[k];
      KeptTwice(s0, s, s', k);
    }
    var n, n' := Max(s0.inodes[i].size, off + tot), Max(s0.inodes[i].size, off + tot + m);
    assert InodeOk(s0, i);
    forall b | 0 <= b && b * BSIZE < n' ensures HasBlock(s', i, b) {
      if b != bn {
        assert b * BSIZE < n;
        MappedAt(s, i, n, b);
      }
    }
    var tot' := tot + m;
    forall pos | 0 <= pos < n' ensures ByteIs(s0, s', i, off, data, tot', pos) {
      if pos < n {
        assert ByteIs(s0, s, i, off, data, tot, pos);
      }
      WrittenByte(l, s0, s, s', i, off, data, tot, m, page, pos);
    }
  }

  /** A file after `d` was written at off. */
  function Splice(f: seq<int>, off: int, d: seq<int>): seq<int>
    requires 0 <= off <= |f|
  {
    f[..off] + d + (if off + |d| < |f| then f[off + |d|..] else [])
  }

  lemma SpliceAt(f: seq<int>, off: int, data: seq<int>, tot: int, pos: int)
    requires 0 <= off <= |f| && 0 <= tot <= |data| && 0 <= pos < Max(|f|, off + tot)
    ensures |Splice(f, off, data[..tot])| == Max(|f|, off + tot)
    ensures Splice(f, off, data[..tot])[pos] == if off <= pos < off + tot then data[pos - off] else f[pos]
  {
  }

  /** File i is the old one with d spliced in at off. */
  ghost predicate Spliced(s0: State, s: State, i: int, off: int, d: seq<int>) {
    && 0 <= i < |s0.inodes| == |s.inodes| && 0 <= off <= |File(s0.inodes[i], s0.blocks)|
    && File(s.inodes[i], s.blocks) == Splice(File(s0.inodes[i], s0.blocks), off, d)
  }

  function Resized(s: State, i: int, size: int): State
    requires 0 <= i < |s.inodes|
  {
    State(s.blocks, s.inodes[i := Inode(size, s.inodes[i].addrs)], s.owner)
  }

  /** The end of writei(): the size covers what was written, and the file is the old
      one with the written bytes spliced in. */
  lemma WritingDone(l: Layout, s0: State, s: State, i: int, off: int, data: seq<int>, tot: int)
    requires Writing(l, s0, s, i, off, data, tot)
    ensures Ok(l, Resized(s, i, Max(s0.inodes[i].size, off + tot)))
    ensures Spliced(s0, Resized(s, i, Max(s0.inodes[i].size, off + tot)), i, off, data[..tot])
  {
    var n := Max(s0.inodes[i].size, off + tot);
    var s' := Resized(s, i, n);
    assert InodeOk(s0, i);
    forall k | 0 <= k < |s'.inodes| ensures InodeOk(s', k) {
      assert InodeOk(s, k);
    }
    forall k, j | 0 <= k < |s'.inodes| && 0 <= j <= INDIRECT ensures SlotOk(s', k, j) {
      assert SlotOk(s, k, j) && InodeOk(s, k);
    }
    forall b | b in s'.owner ensures OwnerOk(l, s', b) {
      assert OwnerOk(l, s, b);
    }
    forall b | 0 <= b < l.size ensures UsedOk(l, s', b) {
      assert UsedOk(l, s, b);
    }
    forall k | 0 <= k < |s'.inodes| ensures MappedTo(s', k, s'.inodes[k].size) {
      assert MappedTo(s, k, s.inodes[k].size) && MappedTo(s, k, s'.inodes[k].size);
      forall bn | 0 <= bn && bn * BSIZE < s'.inodes[k].size ensures HasBlock(s', k, bn) {
        MappedAt(s, k, s'.inodes[k].size, bn);
      }
    }
    var f, g := File(s0.inodes[i], s0.blocks), File(s'.inodes[i], s.blocks);
    var h := Splice(f, off, data[..tot]);
    assert |g| == n == |h| && |f| == s0.inodes[i].size;
    forall pos | 0 <= pos < n ensures g[pos] == h[pos] {
      assert ByteIs(s0, s, i, off, data, tot, pos);
      SpliceAt(f, off, data, tot, pos);
      assert ByteAt(s'.inodes[i], s.blocks, pos) == ByteAt(s.inodes[i], s.blocks, pos);
    }
  }

  /** No other inode changed, nor did its contents. */
  ghost predicate OthersSame(s: State, s': State, i: int) {
    && |s'.inodes| == |s.inodes|
    && forall k {:trigger s'.inodes[k]} :: 0 <= k < |s.inodes| && k != i ==>
         s'.inodes[k] == s.inodes[k] && File(s'.inodes[k], s'.blocks) == File(s.inodes[k], s.blocks)
  }

  lemma WritingOthers(l: Layout, s0: State, s: State, i: int, off: int, data: seq<int>, tot: int, size: int)
    requires Writing(l, s0, s, i, off, data, tot)
    ensures OthersSame(s0, Resized(s, i, size), i) && OwnersGrew(s0, Resized(s, i, size), i)
  {
    forall k | 0 <= k < |s0.inodes| && k != i
      ensures s.inodes[k] == s0.inodes[k] && File(s.inodes[k], s.blocks) == File(s0.inodes[k], s0.blocks)
    {
      assert s.inodes[k] == s0.inodes[k];
      KeptFile(l, s0, s, k);
    }
  }

  /** iupdate() changes no file and no owner. */
  lemma InodeStep(l: Layout, s: State, i: int)
    requires Ok(l, s) && 0 <= i < |s.inodes|
    ensures |s.inodes[i].addrs| == NDIRECT + 1 && Ok(l, InodeWritten(l, s, i))
    ensures SameOwned(s, InodeWritten(l, s, i).blocks)
    ensures UsedUpTo(l.FreeMap(), s.blocks, l.size) ==> UsedUpTo(l.FreeMap(), InodeWritten(l, s, i).blocks, l.size)
    ensures forall k {:trigger File(s.inodes[k], InodeWritten(l, s, i).blocks)} :: 0 <= k < |s.inodes| ==>
              File(s.inodes[k], InodeWritten(l, s, i).blocks) == File(s.inodes[k], s.blocks)
  {
    assert InodeOk(s, i);
    InodePlace(l, i);
    var b := InodeBlock(l, i);
    MetaStep(l, s, b, WithInode(s.blocks[b], i % IPB, s.inodes[i]));
    var m, blocks' := l.FreeMap(), InodeWritten(l, s, i).blocks;
    if UsedUpTo(m, s.blocks, l.size) {
      forall c | 0 <= c < l.size && c < m.size ensures IsUsed(m, blocks', c) {
        assert IsUsed(m, s.blocks, c) && blocks'[BitBlock(m, c)] == s.blocks[BitBlock(m, c)];
      }
    }
  }

  lemma WriteUpdated(l: Layout, s0: State, s: State, i: int, off: int, d: seq<int>)
    requires Ok(l, s) && Spliced(s0, s, i, off, d) && OthersSame(s0, s, i) && OwnersGrew(s0, s, i)
    ensures |s.inodes[i].addrs| == NDIRECT + 1 && Ok(l, InodeWritten(l, s, i))
    ensures Spliced(s0, InodeWritten(l, s, i), i, off, d) && OthersSame(s0, InodeWritten(l, s, i), i)
    ensures OwnersGrew(s0, InodeWritten(l, s, i), i)
  {
    InodeStep(l, s, i);
    var s' := InodeWritten(l, s, i);
    assert File(s.inodes[i], s'.blocks) == File(s.inodes[i], s.blocks);
    forall k | 0 <= k < |s0.inodes| && k != i
      ensures s'.inodes[k] == s0.inodes[k] && File(s'.inodes[k], s'.blocks) == File(s0.inodes[k], s0.blocks)
    {
      assert s.inodes[k] == s0.inodes[k];
    }
  }

  /** The transaction of writei() so far: blocks of the indices from lo up to where it
      is. */
  ghost predicate WriteLogged(l: Layout, s: State, i: int, off: int, n: int, tot: int, logged0: set<int>,
                              logged: set<int>)
    requires 0 <= i < |s.inodes|
  {
    TxOnly(l, s, i, off / BSIZE, (off + n + BSIZE - 1) / BSIZE, logged0, logged)
  }

  /** Changing data blocks, sizes or what is logged of them keeps the transaction. */
  lemma TxKept(l: Layout, s: State, s': State, i: int, lo: int, hi: int, logged0: set<int>, logged: set<int>,
               extra: set<int>)
    requires 0 <= i < |s.inodes| == |s'.inodes| && TxOnly(l, s, i, lo, hi, logged0, logged) && 0 <= lo
    requires hi <= MAXFILE
    requires forall j {:trigger Entry(s'.inodes[i], s'.blocks, j)} :: 0 <= j <= INDIRECT ==>
               Entry(s'.inodes[i], s'.blocks, j) == Entry(s.inodes[i], s.blocks, j)
    requires forall b :: b in extra ==>
               b == InodeBlock(l, i) || (b != 0 && exists bn {:trigger Entry(s.inodes[i], s.blocks, bn)} ::
                                         lo <= bn < hi && b == Entry(s.inodes[i], s.blocks, bn))
    ensures TxOnly(l, s', i, lo, hi, logged0, logged + extra)
  {
    forall b | b in logged + extra && b !in logged0 ensures InTx(l, s', i, lo, hi, b) {
      if b in extra {
        if b != InodeBlock(l, i) {
          var bn :| lo <= bn < hi && b == Entry(s.inodes[i], s.blocks, bn);
          assert Entry(s'.inodes[i], s'.blocks, bn) == b;
        }
      } else {
        assert InTx(l, s, i, lo, hi, b);
        assert Entry(s'.inodes[i], s'.blocks, INDIRECT) == Entry(s.inodes[i], s.blocks, INDIRECT);
        if b != InodeBlock(l, i) && !InFreeMap(l, b) && b != Entry(s.inodes[i], s.blocks, INDIRECT) {
          var bn :| lo <= bn < hi && b == Entry(s.inodes[i], s.blocks, bn);
          assert Entry(s'.inodes[i], s'.blocks, bn) == b;
        }
      }
    }
  }

  /** The last steps of writei(): the size and iupdate(). */
  lemma WriteFinish(l: Layout, s0: State, s1: State, i: int, off: int, data: seq<int>, tot: int, logged0: set<int>,
                    logged1: set<int>)
    requires Writing(l, s0, s1, i, off, data, tot) && WriteLogged(l, s1, i, off, |data|, tot, logged0, logged1)
    ensures var s2 := Resized(s1, i, Max(s0.inodes[i].size, off + tot));
            && |s1.inodes[i].addrs| == NDIRECT + 1 && Ok(l, s2) && Ok(l, InodeWritten(l, s2, i))
            && Spliced(s0, InodeWritten(l, s2, i), i, off, data[..tot]) && OthersSame(s0, InodeWritten(l, s2, i), i)
            && OwnersGrew(s0, InodeWritten(l, s2, i), i)
            && (Stored(l, s0) ==> Stored(l, InodeWritten(l, s2, i)))
            && WriteLogged(l, InodeWritten(l, s2, i), i, off, |data|, |data|, logged0, logged1 + {InodeBlock(l, i)})
  {
    var n, lo, hi := Max(s0.inodes[i].size, off + tot), off / BSIZE, (off + |data| + BSIZE - 1) / BSIZE;
    WritingDone(l, s0, s1, i, off, data, tot);
    WritingOthers(l, s0, s1, i, off, data, tot, n);
    assert InodeOk(s0, i) && InodeOk(s1, i);
    var s2 := Resized(s1, i, n);
    WriteUpdated(l, s0, s2, i, off, data[..tot]);
    if Stored(l, s0) {
      StoredAgain(l, s0, s2, i);
    }
    InodeStep(l, s2, i);
    var s3 := InodeWritten(l, s2, i);
    forall j | 0 <= j <= INDIRECT ensures Entry(s3.inodes[i], s3.blocks, j) == Entry(s1.inodes[i], s1.blocks, j) {
      SameEntries(l, s2, s3.blocks, i, j);
    }
    TxKept(l, s1, s3, i, lo, hi, logged0, logged1, {InodeBlock(l, i)});
  }

  lemma SliceJoin(f: seq<int>, a: int, b: int, c: int)
    requires 0 <= a <= b <= c <= |f|
    ensures f[a..b] + f[b..c] == f[a..c]
  {
  }

  lemma SameChunk(off: int, j: int)
    requires 0 <= off <= j && off % BSIZE + (j - off) < BSIZE
    ensures j / BSIZE == off / BSIZE && j % BSIZE == off % BSIZE + (j - off)
  {
  }

  /** The bytes that readi() copies from one block. */
  lemma ReadChunk(l: Layout, s: State, i: int, off: int, m: int, a: int)
    requires Ok(l, s) && 0 <= i < |s.inodes| && 0 <= off && 0 < m && off + m <= s.inodes[i].size
    requires off % BSIZE + m <= BSIZE
    requires a == Entry(s.inodes[i], s.blocks, off / BSIZE) && 0 < a < |s.blocks| && s.blocks[a].Full()
    ensures Bytes(s.blocks[a])[off % BSIZE..off % BSIZE + m] == File(s.inodes[i], s.blocks)[off..off + m]
  {
    var b, f := Bytes(s.blocks[a]), File(s.inodes[i], s.blocks);
    var o := off % BSIZE;
    forall j | off <= j < off + m ensures f[j] == b[o + (j - off)] {
      SameChunk(off, j);
    }
  }

  /** Writing a and then b behind it is writing both. */
  lemma SpliceTwice(f: seq<int>, off: int, a: seq<int>, b: seq<int>)
    requires 0 <= off <= |f|
    ensures off + |a| <= |Splice(f, off, a)|
    ensures Splice(Splice(f, off, a), off + |a|, b) == Splice(f, off, a + b)
  {
    var g := Splice(f, off, a);
    assert g[..off + |a|] == f[..off] + a;
    if off + |a| + |b| < |f| {
      assert g[off + |a| + |b|..] == f[off + |a| + |b|..];
    }
  }

  lemma OthersTwice(s0: State, s1: State, s2: State, i: int)
    requires OthersSame(s0, s1, i) && OthersSame(s1, s2, i)
    ensures OthersSame(s0, s2, i)
  {
    forall k | 0 <= k < |s0.inodes| && k != i
      ensures s2.inodes[k] == s0.inodes[k]
      ensures File(s2.inodes[k], s2.blocks) == File(s0.inodes[k], s0.blocks)
    {
      assert s1.inodes[k] == s0.inodes[k];
    }
  }

  /** writei()'s argument checks fail. */
  predicate Refused(ino: Inode, off: int, n: int) {
    off > ino.size || off + n >= 0x1_0000_0000 || off + n > MAXFILE * BSIZE
  }

  /** Where the chunk of writei()'s loop that starts at byte r of the data ends. */
  function ChunkEnd(off: int, n: int, r: int): int {
    if n - r < BSIZE - (off + r) % BSIZE then n else r + BSIZE - (off + r) % BSIZE
  }

  /** What writei() does when user memory gives the first `readable` bytes: it refuses, or
      the first r bytes are spliced into the file, all of them unless the disk is full or
      the next chunk cannot be copied in. */
  ghost predicate WriteResult(l: Layout, s0: State, s: State, i: int, off: int, data: seq<int>, readable: int, r: int) {
    && Ok(l, s) && OthersSame(s0, s, i) && OwnersGrew(s0, s, i) && 0 <= i < |s0.inodes|
    && -1 <= r <= |data|
    && (r == -1 <==> Refused(s0.inodes[i], off, |data|)) && (r == -1 ==> s == s0)
    && (r >= 0 ==> Spliced(s0, s, i, off, data[..r])) && (r > 0 ==> r <= readable)
    && (0 <= r < |data| ==> UsedUpTo(l.FreeMap(), s.blocks, l.size) || ChunkEnd(off, |data|, r) > readable)
  }

  /** The first n bytes of data are in the file; when off is past its end nothing is. */
  ghost predicate WroteFile(l: Layout, s0: State, s: State, i: int, off: int, data: seq<int>, n: int) {
    && Ok(l, s0) && Ok(l, s) && OthersSame(s0, s, i) && OwnersGrew(s0, s, i) && 0 <= i < |s0.inodes|
    && 0 <= n <= |data| && 0 <= off
    && if off > s0.inodes[i].size then n == 0 && s == s0 else Spliced(s0, s, i, off, data[..n])
  }

  /** Why filewrite() stopped short: the disk is full, the data cannot all be copied in, or
      the offset or the size is beyond what is allowed. */
  ghost predicate Stopped(l: Layout, s0: State, s: State, i: int, off: int, data: seq<int>, readable: int, n: int)
    requires 0 <= i < |s0.inodes| && MapFits(l.FreeMap(), s.blocks)
  {
    UsedUpTo(l.FreeMap(), s.blocks, l.size) || readable < |data| || off > s0.inodes[i].size
        || off + |data| > MAXFILE * BSIZE
  }

  lemma OthersItself(s: State, i: int)
    ensures OthersSame(s, s, i) && OwnersGrew(s, s, i)
  {
  }

  /** How far writing has come after a writei() that returned r. */
  function Advanced(at: int, r: int): int {
    if r > 0 then at + r else at
  }

  lemma WroteNothing(l: Layout, s: State, i: int, off: int, data: seq<int>)
    requires Ok(l, s) && 0 <= i < |s.inodes| && 0 <= off
    ensures WroteFile(l, s, s, i, off, data, 0)
  {
    assert InodeOk(s, i);
    var f := File(s.inodes[i], s.blocks);
    assert data[..0] == [];
    assert off <= |f| ==> Splice(f, off, []) == f;
  }

  /** The next chunk after the first `at` bytes. */
  lemma SpliceNext(f: seq<int>, off: int, data: seq<int>, at: int, n: int, r: int)
    requires 0 <= off <= |f| && 0 <= at && 0 <= r <= n && at + n <= |data|
    ensures off + at <= |Splice(f, off, data[..at])|
    ensures Splice(Splice(f, off, data[..at]), off + at, data[at..at + n][..r]) == Splice(f, off, data[..at + r])
  {
    assert data[at..at + n][..r] == data[at..at + r];
    SpliceTwice(f, off, data[..at], data[at..at + r]);
    assert data[..at] + data[at..at + r] == data[..at + r];
  }

  lemma WroteMore(l: Layout, s0: State, s1: State, s2: State, i: int, off: int, data: seq<int>, readable: int, at: int,
                  n1: int, r: int)
    requires WroteFile(l, s0, s1, i, off, data, at) && 0 < n1 && at + n1 <= |data|
    requires WriteResult(l, s1, s2, i, off + at, data[at..at + n1], readable - at, r)
    ensures WroteFile(l, s0, s2, i, off, data, Advanced(at, r))
    ensures r != n1 ==> Stopped(l, s0, s2, i, off, data, readable, Advanced(at, r))
  {
    OthersTwice(s0, s1, s2, i);
    OwnersTwice(s0, s1, s2, i);
    assert InodeOk(s0, i) && InodeOk(s1, i);
    if off <= s0.inodes[i].size {
      var f0 := File(s0.inodes[i], s0.blocks);
      SpliceTwice(f0, off, data[..at], []);
      if r >= 0 {
        SpliceNext(f0, off, data, at, n1, r);
      }
    }
  }

  /** What was written lies below the largest size a file can have. */
  lemma OffsetFits(l: Layout, s0: State, s: State, i: int, off: int, data: seq<int>, n: int)
    requires WroteFile(l, s0, s, i, off, data, n) && off < 0x1_0000_0000
    ensures off + n < 0x1_0000_0000
  {
    assert InodeOk(s0, i) && InodeOk(s, i);
    if n > 0 {
      assert |data[..n]| == n;
      assert |File(s.inodes[i], s.blocks)| >= off + n;
    }
  }

  /** The bytes spliced in are there. */
  lemma WrittenIsThere(s0: State, s: State, i: int, off: int, d: seq<int>)
    requires Spliced(s0, s, i, off, d)
    ensures off + |d| <= |File(s.inodes[i], s.blocks)| && File(s.inodes[i], s.blocks)[off..off + |d|] == d
  {
  }

  // ----- the transactions of filewrite() -----

  /** A transaction: the states around it, the place and the number of the bytes asked for,
      what writei() returned, and the blocks logged. */
  datatype Tx = Tx(before: State, after: State, at: int, n: int, r: int, logged: set<int>)

  /** It is a writei() of 3072 bytes, or of what is left if that is less, whose changed blocks
      are all logged, home blocks all of them, and at most seven when the free map is one
      block; it leaves inodes on disk as in memory. */
  ghost predicate TxOk(l: Layout, i: int, off: int, data: seq<int>, readable: int, t: Tx) {
    match t
    case Tx(before, after, at, n, r, logged) =>
      && 0 <= at < |data| && n == (if |data| - at > 3072 then 3072 else |data| - at)
      && WriteResult(l, before, after, i, off + at, data[at..at + n], readable - at, r)
      && Covered(before.blocks, after.blocks, {}, logged) && (Stored(l, before) ==> Stored(l, after))
      && (forall b :: b in logged ==> l.inodestart <= b < l.size) && (l.size <= BPB ==> |logged| <= 7)
  }

  /** The last transaction wrote all that it was asked to. */
  ghost predicate WentOn(txs: seq<Tx>) {
    txs != [] ==> txs[|txs| - 1].r == txs[|txs| - 1].n
  }

  /** Transaction k starts where the one before, which wrote all it was asked to, ended. */
  ghost predicate Follows(s0: State, txs: seq<Tx>, k: int)
    requires 0 <= k < |txs|
  {
    if k == 0 then txs[0].before == s0 && txs[0].at == 0
    else
      && txs[k].before == txs[k - 1].after && txs[k].at == txs[k - 1].at + txs[k - 1].r
      && txs[k - 1].r == txs[k - 1].n
  }

  ghost function StateAfter(s0: State, txs: seq<Tx>): State {
    if txs == [] then s0 else txs[|txs| - 1].after
  }

  ghost function DoneAfter(txs: seq<Tx>): int {
    if txs == [] then 0 else Advanced(txs[|txs| - 1].at, txs[|txs| - 1].r)
  }

  /** The transactions lead from s0 to s one after the other and write `done` bytes in all. */
  ghost predicate Chain(l: Layout, s0: State, s: State, i: int, off: int, data: seq<int>, readable: int, done: int,
                        txs: seq<Tx>)
  {
    && s == StateAfter(s0, txs) && done == DoneAfter(txs)
    && (forall k {:trigger txs[k]} :: 0 <= k < |txs| ==> TxOk(l, i, off, data, readable, txs[k]))
    && forall k {:trigger Follows(s0, txs, k)} :: 0 <= k < |txs| ==> Follows(s0, txs, k)
  }

  lemma ChainMore(l: Layout, s0: State, s: State, i: int, off: int, data: seq<int>, readable: int, at: int,
                  txs: seq<Tx>, t: Tx)
    requires Chain(l, s0, s, i, off, data, readable, at, txs) && WentOn(txs)
    requires TxOk(l, i, off, data, readable, t) && t.before == s && t.at == at
    ensures Chain(l, s0, t.after, i, off, data, readable, Advanced(at, t.r), txs + [t])
  {
    var more := txs + [t];
    assert txs != [] ==> TxOk(l, i, off, data, readable, txs[|txs| - 1]);
    forall k | 0 <= k < |more| ensures Follows(s0, more, k) {
      if k < |txs| {
        assert Follows(s0, txs, k);
      }
    }
  }

  /** Each transaction asks for some bytes. */
  lemma ChunkOk(l: Layout, s0: State, s: State, i: int, off: int, data: seq<int>, readable: int, done: int,
                txs: seq<Tx>, k: int)
    requires Chain(l, s0, s, i, off, data, readable, done, txs) && 0 <= k < |txs|
    ensures 0 < txs[k].n && txs[k].r <= txs[k].n
  {
  }

  /** The first a transactions of a chain are a chain. */
  lemma ChainPrefix(l: Layout, s0: State, s: State, i: int, off: int, data: seq<int>, readable: int, done: int,
                    txs: seq<Tx>, a: int)
    requires Chain(l, s0, s, i, off, data, readable, done, txs) && 0 <= a <= |txs|
    ensures Chain(l, s0, StateAfter(s0, txs[..a]), i, off, data, readable, DoneAfter(txs[..a]), txs[..a])
    ensures a < |txs| ==> txs[a].before == StateAfter(s0, txs[..a]) && txs[a].at == DoneAfter(txs[..a])
  {
    var front := txs[..a];
    forall k | 0 <= k < a ensures Follows(s0, front, k) {
      assert Follows(s0, txs, k);
    }
    if a < |txs| {
      assert Follows(s0, txs, a);
      if a > 0 {
        ChunkOk(l, s0, s, i, off, data, readable, done, txs, a - 1);
      }
    }
  }

  lemma WroteTx(l: Layout, s0: State, i: int, off: int, data: seq<int>, readable: int, t: Tx)
    requires WroteFile(l, s0, t.before, i, off, data, t.at) && TxOk(l, i, off, data, readable, t)
    ensures WroteFile(l, s0, t.after, i, off, data, Advanced(t.at, t.r))
    ensures t.r != t.n ==> Stopped(l, s0, t.after, i, off, data, readable, Advanced(t.at, t.r))
  {
    WroteMore(l, s0, t.before, t.after, i, off, data, readable, t.at, t.n, t.r);
  }

  /** What a chain of transactions writes, and why it ends before the data does. */
  lemma {:induction false} ChainWrote(l: Layout, s0: State, s: State, i: int, off: int, data: seq<int>, readable: int,
                                      done: int, txs: seq<Tx>)
    requires Ok(l, s0) && 0 <= i < |s0.inodes| && 0 <= off && Chain(l, s0, s, i, off, data, readable, done, txs)
    ensures WroteFile(l, s0, s, i, off, data, done)
    ensures !WentOn(txs) ==> Stopped(l, s0, s, i, off, data, readable, done)
    decreases |txs|
  {
    if txs == [] {
      WroteNothing(l, s, i, off, data);
    } else {
      var n := |txs| - 1;
      ChainPrefix(l, s0, s, i, off, data, readable, done, txs, n);
      ChainWrote(l, s0, StateAfter(s0, txs[..n]), i, off, data, readable, DoneAfter(txs[..n]), txs[..n]);
      WroteTx(l, s0, i, off, data, readable, txs[n]);
    }
  }

  /** What writei() logs are home blocks. */
  lemma LoggedHome(l: Layout, s: State, i: int, lo: int, hi: int, logged: set<int>)
    requires Ok(l, s) && 0 <= i < |s.inodes| && TxOnly(l, s, i, lo, hi, {}, logged)
    ensures forall b :: b in logged ==> l.inodestart <= b < l.size
  {
    InodePlace(l, i);
    forall b | b in logged ensures l.inodestart <= b < l.size {
      assert InTx(l, s, i, lo, hi, b);
      if b != InodeBlock(l, i) && !InFreeMap(l, b) {
        var bn :| b != 0 && b == Entry(s.inodes[i], s.blocks, bn);
        assert SlotOk(s, i, bn) && OwnerOk(l, s, b);
      }
    }
  }

  /** At most 3072 bytes reach across at most four blocks. */
  lemma ChunkSpan(off: int, n: int)
    requires 0 <= off && 0 <= n <= 3072
    ensures (off + n + BSIZE - 1) / BSIZE <= off / BSIZE + 4
  {
  }

  /** A writei() of at most 3072 bytes logs home blocks, seven at most when the free map is
      one block. */
  lemma ChunkLogged(l: Layout, s: State, i: int, off: int, n: int, logged: set<int>)
    requires Ok(l, s) && 0 <= i < |s.inodes| && 0 <= off && 0 < n <= 3072
    requires WriteLogged(l, s, i, off, n, n, {}, logged)
    ensures forall b :: b in logged ==> l.inodestart <= b < l.size
    ensures l.size <= BPB ==> |logged| <= 7
  {
    var lo, hi := off / BSIZE, (off + n + BSIZE - 1) / BSIZE;
    ChunkSpan(off, n);
    if l.size <= BPB {
      SevenBlocks(l, s, i, lo, hi, logged);
    }
    LoggedHome(l, s, i, lo, hi, logged);
  }

  lemma ChunkIsTx(l: Layout, i: int, off: int, data: seq<int>, readable: int, t: Tx)
    requires 0 <= t.at < |data| && t.n == (if |data| - t.at > 3072 then 3072 else |data| - t.at) && 0 <= off
    requires WriteResult(l, t.before, t.after, i, off + t.at, data[t.at..t.at + t.n], readable - t.at, t.r)
    requires WriteLogged(l, t.after, i, off + t.at, t.n, t.n, {}, t.logged)
    requires Covered(t.before.blocks, t.after.blocks, {}, t.logged) && (Stored(l, t.before) ==> Stored(l, t.after))
    ensures TxOk(l, i, off, data, readable, t)
  {
    ChunkLogged(l, t.after, i, off + t.at, t.n, t.logged);
  }

  // ----- truncation -----

  function Cleared(addrs: seq<int>, d: int): (r: seq<int>)
    requires |addrs| == NDIRECT + 1 && 0 <= d
    ensures |r| == |addrs|
  {
    seq(NDIRECT + 1, k requires 0 <= k < NDIRECT + 1 => if k < d && k < NDIRECT then 0 else addrs[k])
  }

  ghost predicate OwnerLeft(s0: State, s: State, i: int, d: int, b: int) {
    && (b in s.owner <==> b in s0.owner && !(s0.owner[b].inum == i && s0.owner[b].idx < d))
    && (b in s.owner ==> s.owner[b] == s0.owner[b])
  }

  /** itrunc() has freed the blocks in slots 0 .. d - 1 of inode i. */
  ghost predicate Truncating(l: Layout, s0: State, s: State, i: int, d: int) {
    && Ok(l, s0) && Shaped(l, s) && 0 <= i < |s0.inodes| && 0 <= d <= INDIRECT
    && |s0.inodes[i].addrs| == NDIRECT + 1
    && s.inodes == s0.inodes[i := Inode(s0.inodes[i].size, Cleared(s0.inodes[i].addrs, d))]
    && (forall b {:trigger s.blocks[b]} :: l.datastart <= b < l.size ==> s.blocks[b] == s0.blocks[b])
    && (forall b {:trigger OwnerLeft(s0, s, i, d, b)} :: OwnerLeft(s0, s, i, d, b))
    && MarksOk(l, s) && SameInodeBlocks(l, s0.blocks, s.blocks)
  }

  lemma TruncBegin(l: Layout, s: State, i: int)
    requires Ok(l, s) && 0 <= i < |s.inodes|
    ensures Truncating(l, s, s, i, 0)
  {
    assert InodeOk(s, i);
    assert Cleared(s.inodes[i].addrs, 0) == s.inodes[i].addrs;
    assert s.inodes[i] == Inode(s.inodes[i].size, Cleared(s.inodes[i].addrs, 0));
    forall b ensures OwnerLeft(s, s, i, 0, b) {
      if b in s.owner {
        assert OwnerOk(l, s, b);
      }
    }
  }

  /** The block that slot d names is still owned, so still marked. */
  lemma StillOwned(l: Layout, s0: State, s: State, i: int, d: int)
    requires Truncating(l, s0, s, i, d) && Entry(s0.inodes[i], s0.blocks, d) != 0
    ensures Entry(s0.inodes[i], s0.blocks, d) in s.owner
    ensures l.datastart <= Entry(s0.inodes[i], s0.blocks, d) < l.size
  {
    var b := Entry(s0.inodes[i], s0.blocks, d);
    assert SlotOk(s0, i, d) && OwnerOk(l, s0, b) && OwnerLeft(s0, s, i, d, b);
  }

  /** So is the indirect block, until the end. */
  lemma StillOwned2(l: Layout, s0: State, s: State, i: int, d: int)
    requires Truncating(l, s0, s, i, d) && Entry(s0.inodes[i], s0.blocks, INDIRECT) != 0
    ensures var b := Entry(s0.inodes[i], s0.blocks, INDIRECT);
            b in s.owner && l.datastart <= b < l.size && b == s.inodes[i].addrs[NDIRECT] && s.blocks[b] == s0.blocks[b]
                && s.blocks[b].Full()
  {
    var b := Entry(s0.inodes[i], s0.blocks, INDIRECT);
    assert SlotOk(s0, i, INDIRECT) && OwnerOk(l, s0, b) && OwnerLeft(s0, s, i, d, b);
  }

  function FreedBlock(l: Layout, s: State, b: int): State
    requires MapFits(l.FreeMap(), s.blocks) && 0 <= b < l.size
  {
    State(MarkIn(l.FreeMap(), s.blocks, b, false), s.inodes, s.owner - {b})
  }

  function WithAddrs(s: State, i: int, d: int): State
    requires 0 <= i < |s.inodes| && |s.inodes[i].addrs| == NDIRECT + 1 && 0 <= d
  {
    State(s.blocks, s.inodes[i := Inode(s.inodes[i].size, Cleared(s.inodes[i].addrs, d))], s.owner)
  }

  /** One turn: the block of slot d, if any, is freed and its pointer cleared. */
  lemma TruncMore(l: Layout, s0: State, s: State, s': State, i: int, d: int)
    requires Truncating(l, s0, s, i, d) && d < INDIRECT
    requires if Entry(s0.inodes[i], s0.blocks, d) == 0 then s' == WithAddrs(s, i, d + 1)
             else
               && Entry(s0.inodes[i], s0.blocks, d) in s.owner
               && l.datastart <= Entry(s0.inodes[i], s0.blocks, d) < l.size
               && s' == WithAddrs(FreedBlock(l, s, Entry(s0.inodes[i], s0.blocks, d)), i, d + 1)
    ensures Truncating(l, s0, s', i, d + 1)
  {
    var a := Entry(s0.inodes[i], s0.blocks, d);
    assert Cleared(Cleared(s0.inodes[i].addrs, d), d + 1) == Cleared(s0.inodes[i].addrs, d + 1);
    if a != 0 {
      FreeStep(l, s, a);
    }
    var d' := d + 1;
    forall b ensures OwnerLeft(s0, s', i, d', b) {
      assert OwnerLeft(s0, s, i, d, b);
      if b in s0.owner {
        assert OwnerOk(l, s0, b);
      }
      assert SlotOk(s0, i, d);
    }
    forall k | 0 <= k < |s'.inodes| ensures InodeOk(s', k) {
      assert InodeOk(s, k);
    }
    forall b | 0 <= b < l.size ensures UsedOk(l, s', b) {
      if a != 0 {
        assert UsedOk(l, FreedBlock(l, s, a), b);
      } else {
        assert UsedOk(l, s, b);
      }
    }
  }

  /** Without an indirect block the slots behind it are empty. */
  lemma TruncSkip(l: Layout, s0: State, s: State, i: int)
    requires Truncating(l, s0, s, i, NDIRECT) && Entry(s0.inodes[i], s0.blocks, INDIRECT) == 0
    ensures Truncating(l, s0, s, i, INDIRECT)
  {
    assert Cleared(s0.inodes[i].addrs, INDIRECT) == Cleared(s0.inodes[i].addrs, NDIRECT);
    forall b ensures OwnerLeft(s0, s, i, INDIRECT, b) {
      assert OwnerLeft(s0, s, i, NDIRECT, b);
      if b in s0.owner {
        assert OwnerOk(l, s0, b);
      }
    }
  }

  /** Inode i is empty; its blocks, and no others, are free; all other files are the same. */
  ghost predicate Truncated(l: Layout, s0: State, s: State, i: int) {
    && Ok(l, s) && 0 <= i < |s0.inodes| && s.inodes == s0.inodes[i := Inode(0, NO_ADDRS)]
    && OthersSame(s0, s, i)
    && (forall b {:trigger b in s.owner} :: b in s.owner <==> b in s0.owner && s0.owner[b].inum != i)
    && (forall b {:trigger s.owner[b]} :: b in s.owner ==> s.owner[b] == s0.owner[b])
  }

  function Emptied(s: State, i: int): State
    requires 0 <= i < |s.inodes|
  {
    State(s.blocks, s.inodes[i := Inode(0, NO_ADDRS)], s.owner)
  }

  lemma TruncMarks(l: Layout, s1: State, s': State)
    requires MapFits(l.FreeMap(), s1.blocks) && MarksOk(l, s1) && s'.blocks == s1.blocks
    requires s'.owner == s1.owner
    ensures MarksOk(l, s')
  {
    forall b | 0 <= b < l.size ensures UsedOk(l, s', b) {
      assert UsedOk(l, s1, b);
    }
  }

  lemma TruncOk(l: Layout, s0: State, s: State, i: int)
    requires Ok(l, s0) && 0 <= i < |s0.inodes| && s.inodes == s0.inodes[i := Inode(0, NO_ADDRS)]
    requires BlocksOk(l, s.blocks) && MarksOk(l, s)
    requires forall b :: l.datastart <= b < l.size ==> s.blocks[b] == s0.blocks[b]
    requires forall b :: (b in s.owner <==> b in s0.owner && s0.owner[b].inum != i)
               && (b in s.owner ==> s.owner[b] == s0.owner[b])
    ensures Ok(l, s) && OthersSame(s0, s, i)
  {
    forall k | 0 <= k < |s.inodes| ensures InodeOk(s, k) {
      assert InodeOk(s0, k);
    }
    forall k, j | 0 <= k < |s.inodes| && 0 <= j <= INDIRECT
      ensures Entry(s.inodes[k], s.blocks, j) == if k == i then 0 else Entry(s0.inodes[k], s0.blocks, j)
    {
      assert InodeOk(s0, k) && SlotOk(s0, k, INDIRECT);
      if k != i && Entry(s0.inodes[k], s0.blocks, INDIRECT) != 0 {
        assert OwnerOk(l, s0, Entry(s0.inodes[k], s0.blocks, INDIRECT));
      }
    }
    forall k, j | 0 <= k < |s.inodes| && 0 <= j <= INDIRECT ensures SlotOk(s, k, j) {
      assert SlotOk(s0, k, j);
    }
    forall b | b in s.owner ensures OwnerOk(l, s, b) {
      assert OwnerOk(l, s0, b);
    }
    forall k | 0 <= k < |s.inodes| ensures MappedTo(s, k, s.inodes[k].size) && (k != i ==> Kept(s0, s, k)) {
      assert MappedTo(s0, k, s0.inodes[k].size) && InodeOk(s0, k);
      forall bn | 0 <= bn && bn * BSIZE < s.inodes[k].size ensures HasBlock(s, k, bn) {
        MappedAt(s0, k, s0.inodes[k].size, bn);
      }
      if k != i {
        forall j | 0 <= j < MAXFILE ensures KeptAt(s0, s, k, j) {
          assert SlotOk(s0, k, j);
          assert Entry(s0.inodes[k], s0.blocks, j) != 0 ==> OwnerOk(l, s0, Entry(s0.inodes[k], s0.blocks, j));
        }
      }
    }
    forall k | 0 <= k < |s.inodes| && k != i
      ensures File(s.inodes[k], s.blocks) == File(s0.inodes[k], s0.blocks)
    {
      KeptFile(l, s0, s, k);
    }
  }

  lemma TruncEnd(l: Layout, s0: State, s: State, s1: State, i: int)
    requires Truncating(l, s0, s, i, INDIRECT)
    requires if Entry(s0.inodes[i], s0.blocks, INDIRECT) == 0 then s1 == s
             else
               && Entry(s0.inodes[i], s0.blocks, INDIRECT) in s.owner
               && l.datastart <= Entry(s0.inodes[i], s0.blocks, INDIRECT) < l.size
               && s1 == FreedBlock(l, s, Entry(s0.inodes[i], s0.blocks, INDIRECT))
    ensures Truncated(l, s0, Emptied(s1, i), i) && SameInodeBlocks(l, s0.blocks, s1.blocks)
  {
    var a, s' := Entry(s0.inodes[i], s0.blocks, INDIRECT), Emptied(s1, i);
    if a != 0 {
      FreeStep(l, s, a);
    }
    forall b
      ensures (b in s'.owner <==> b in s0.owner && s0.owner[b].inum != i)
      ensures (b in s'.owner ==> s'.owner[b] == s0.owner[b])
    {
      assert OwnerLeft(s0, s, i, INDIRECT, b) && SlotOk(s0, i, INDIRECT);
      if b in s0.owner {
        assert OwnerOk(l, s0, b);
      }
    }
    assert forall b :: l.datastart <= b < l.size ==> s'.blocks[b] == s0.blocks[b] by {
      assert forall b :: l.datastart <= b < l.size ==> s.blocks[b] == s0.blocks[b];
    }
    TruncMarks(l, s1, s');
    TruncOk(l, s0, s', i);
  }

  lemma TruncUpdated(l: Layout, s0: State, s: State, i: int)
    requires Ok(l, s0) && Truncated(l, s0, s, i) && SameInodeBlocks(l, s0.blocks, s.blocks)
    ensures |s.inodes[i].addrs| == NDIRECT + 1 && Truncated(l, s0, InodeWritten(l, s, i), i)
    ensures Stored(l, s0) ==> Stored(l, InodeWritten(l, s, i))
  {
    InodeStep(l, s, i);
    if Stored(l, s0) {
      StoredAgain(l, s0, s, i);
    }
    var s' := InodeWritten(l, s, i);
    forall k | 0 <= k < |s0.inodes| && k != i
      ensures s'.inodes[k] == s0.inodes[k] && File(s'.inodes[k], s'.blocks) == File(s0.inodes[k], s0.blocks)
    {
      assert s.inodes[k] == s0.inodes[k];
    }
  }

  /** Conservation over a file's life: if inode i owned nothing at first, then after any
      growth and a truncation the free map is what it was. */
  lemma TruncationRestores(l: Layout, s0: State, s1: State, s2: State, i: int, b: int)
    requires Ok(l, s0) && OwnersGrew(s0, s1, i) && Truncated(l, s1, s2, i) && 0 <= b < l.size
    requires forall c :: c in s0.owner ==> s0.owner[c].inum != i
    ensures IsUsed(l.FreeMap(), s2.blocks, b) <==> IsUsed(l.FreeMap(), s0.blocks, b)
  {
    assert UsedOk(l, s0, b) && UsedOk(l, s2, b);
    assert b in s0.owner ==> b in s1.owner && s1.owner[b] == s0.owner[b];
    assert b in s2.owner <==> b in s1.owner && s1.owner[b].inum != i;
  }

  lemma BlockInWrite(off: int, n: int, tot: int)
    requires 0 <= off && 0 <= tot < n && off + n <= MAXFILE * BSIZE
    ensures off / BSIZE <= (off + tot) / BSIZE < (off + n + BSIZE - 1) / BSIZE <= MAXFILE
  {
  }

  lemma TxWiden(l: Layout, s: State, i: int, lo: int, hi: int, lo': int, hi': int, logged0: set<int>,
                logged: set<int>)
    requires 0 <= i < |s.inodes| && TxOnly(l, s, i, lo, hi, logged0, logged) && lo' <= lo && hi <= hi'
    ensures TxOnly(l, s, i, lo', hi', logged0, logged)
  {
    forall b | b in logged && b !in logged0 ensures InTx(l, s, i, lo', hi', b) {
      assert InTx(l, s, i, lo, hi, b);
    }
  }

  /** The sum of two 32-bit numbers, cut to 32 bits, is below the first. */
  predicate Wraps(off: int, n: int) {
    (off + n) % 0x1_0000_0000 < off
  }

  lemma WrapsIsOverflow(off: int, n: int)
    requires 0 <= off < 0x1_0000_0000 && 0 <= n < 0x1_0000_0000
    ensures Wraps(off, n) <==> off + n >= 0x1_0000_0000
  {
  }

  ghost predicate AreBytes(d: seq<int>) {
    forall k {:trigger d[k]} :: 0 <= k < |d| ==> IsByte(d[k])
  }

  /** balloc()'s two log_write()s are part of the operation. */
  lemma OneInTx(l: Layout, s: State, i: int, idx: int, b: int, logged0: set<int>, logged: set<int>)
    requires 0 <= i < |s.inodes| && 0 <= idx <= INDIRECT && Entry(s.inodes[i], s.blocks, idx) == b
    requires if b == 0 then logged == logged0
               else logged == logged0 + {BitBlock(l.FreeMap(), b), b} && InFreeMap(l, BitBlock(l.FreeMap(), b))
    ensures TxOnly(l, s, i, idx, idx + 1, logged0, logged)
  {
  }

  lemma TxIndirect(l: Layout, s: State, i: int, bn: int, logged0: set<int>, logged: set<int>)
    requires 0 <= i < |s.inodes| && TxOnly(l, s, i, INDIRECT, INDIRECT + 1, logged0, logged)
    ensures TxOnly(l, s, i, bn, bn + 1, logged0, logged)
  {
    forall b | b in logged && b !in logged0 ensures InTx(l, s, i, bn, bn + 1, b) {
      assert InTx(l, s, i, INDIRECT, INDIRECT + 1, b);
    }
  }

  lemma ExtendedSame(l: Layout, s: State, i: int)
    requires Ok(l, s) && 0 <= i < |s.inodes|
    ensures Extended(l, s, s, i)
  {
    forall k | 0 <= k < |s.inodes| ensures Kept(s, s, k) {
      forall h | 0 <= h < MAXFILE ensures KeptAt(s, s, k, h) {
        assert SlotOk(s, k, h);
        assert Entry(s.inodes[k], s.blocks, h) != 0 ==> OwnerOk(l, s, Entry(s.inodes[k], s.blocks, h));
      }
    }
  }

  class FileSystem {
    const l: Layout

    /** The logical blocks, which bread() returns and log_write() changes. */
    var blocks: Image
    /** The inodes in memory; iupdate() copies one to its block. */
    var inodes: seq<Inode>
    ghost var owner: map<int, Slot>
    /** The blocks the running transaction has logged. */
    ghost var logged: set<int>

    ghost function S(): State
      reads this
    {
      State(blocks, inodes, owner)
    }

    ghost predicate Valid()
      reads this
    {
      Ok(l, S())
    }

    /** A disk in order, with the inodes that it holds. */
    constructor (layout: Layout, image: Image, ghost owners: map<int, Slot>)
      requires BlocksOk(layout, image) && Ok(layout, State(image, InodesOn(layout, image), owners))
      ensures l == layout && S() == State(image, InodesOn(layout, image), owners) && Valid() && Stored(l, S())
    {
      StoredInodes(layout, State(image, InodesOn(layout, image), owners));
      l, blocks, inodes, owner, logged := layout, image, InodesOn(layout, image), owners, {};
    }

    /** balloc(): a zeroed block, newly marked and pending for the process, or 0 when every
        block is marked. */
    method Balloc(ghost proc: nat) returns (b: int)
      requires Valid()
      modifies this`blocks, this`owner, this`logged
      ensures b == 0 ==> unchanged(this) && UsedUpTo(l.FreeMap(), blocks, l.size)
      ensures b != 0 ==>
                0 < b < l.size && !IsUsed(l.FreeMap(), old(blocks), b) && blocks == Taken(l, old(blocks), b)
      ensures b != 0 ==> logged == old(logged) + {BitBlock(l.FreeMap(), b), b}
      ensures Valid() && AllKept(old(S()), S())
      ensures b != 0 ==> b !in old(owner) && S() == TakenBy(l, old(S()), b, proc)
      ensures SameOwned(old(S()), blocks) && SameInodeBlocks(l, old(blocks), blocks)
      ensures Covered(old(blocks), blocks, old(logged), logged)
    {
      FrameOwned(l, S(), blocks);
      assert WithBlocks(S(), blocks) == S();
      b := FindFree(l.FreeMap(), blocks);
      if b == -1 {
        return 0;
      }
      TakeStep(l, S(), b, proc);
      blocks := MarkIn(l.FreeMap(), blocks, b, true);
      blocks := blocks[b := ZeroBlock()];
      logged := logged + {BitBlock(l.FreeMap(), b), b};
      owner := owner[b := Pending(proc)];
    }

    /** Gives ip->addrs[k] a fresh block. */
    method AllocAddr(i: int, k: int) returns (b: int)
      requires Valid() && 0 <= i < |inodes| && 0 <= k <= NDIRECT && |inodes[i].addrs| == NDIRECT + 1
      requires inodes[i].addrs[k] == 0
      modifies this`blocks, this`inodes, this`owner, this`logged
      ensures Extended(l, old(S()), S(), i)
      ensures b == 0 ==> unchanged(this) && UsedUpTo(l.FreeMap(), blocks, l.size)
      ensures b != 0 ==>
                inodes == old(inodes)[i := Inode(old(inodes)[i].size, old(inodes)[i].addrs[k := b])] && 0 < b < l.size
      ensures b != 0 ==>
                blocks[b] == ZeroBlock() && l.datastart <= b && InFreeMap(l, BitBlock(l.FreeMap(), b))
      ensures b != 0 ==> logged == old(logged) + {BitBlock(l.FreeMap(), b), b}
      ensures Covered(old(blocks), blocks, old(logged), logged)
    {
      b := Balloc(0);
      if b == 0 {
        return;
      }
      ghost var s1 := S();
      assert OwnerOk(l, s1, b);
      AttachAddr(l, s1, i, k, b);
      inodes := inodes[i := Inode(inodes[i].size, inodes[i].addrs[k := b])];
      owner := owner[b := Slot(i, if k == NDIRECT then INDIRECT else k)];
      assert S() == SetAddr(s1, i, k, b);
      forall j | 0 <= j < |inodes| ensures Kept(old(S()), S(), j) {
        KeptTwice(old(S()), s1, S(), j);
      }
    }

    /** Gives word w of the indirect block a fresh block. */
    method AllocWord(i: int, w: int) returns (b: int)
      requires Valid() && 0 <= i < |inodes| && 0 <= w < NINDIRECT
      requires Entry(inodes[i], blocks, INDIRECT) != 0 && Entry(inodes[i], blocks, NDIRECT + w) == 0
      modifies this`blocks, this`owner, this`logged
      ensures Extended(l, old(S()), S(), i)
      ensures b == 0 ==> unchanged(this) && UsedUpTo(l.FreeMap(), blocks, l.size)
      ensures b != 0 ==> 0 < b < l.size && Entry(inodes[i], blocks, NDIRECT + w) == b
      ensures b != 0 ==> blocks[b] == ZeroBlock() && InFreeMap(l, BitBlock(l.FreeMap(), b))
      ensures b != 0 ==>
                logged == old(logged) + {BitBlock(l.FreeMap(), b), b, Entry(inodes[i], blocks, INDIRECT)}
      ensures Covered(old(blocks), blocks, old(logged), logged)
    {
      b := Balloc(0);
      if b == 0 {
        return;
      }
      ghost var s1 := S();
      SameEntries(l, old(S()), blocks, i, NDIRECT + w);
      AttachWord(l, s1, i, w, b);
      var a := inodes[i].addrs[NDIRECT];
      assert InodeOk(s1, i) && SlotOk(s1, i, INDIRECT) && a in s1.owner;
      blocks := blocks[a := Block(blocks[a].words[w := b])];
      logged := logged + {a};
      owner := owner[b := Slot(i, NDIRECT + w)];
      assert S() == SetWord(s1, a, w, b, i);
      forall j | 0 <= j < |inodes| ensures Kept(old(S()), S(), j) {
        KeptTwice(old(S()), s1, S(), j);
      }
    }

    /** The second half of bmap(), once the indirect block a is there. */
    method BmapIndirect(i: int, w: int, a: int, ghost s0: State, ghost logged0: set<int>) returns (addr: int)
      requires Valid() && 0 <= i < |inodes| && 0 <= w < NINDIRECT && Extended(l, s0, S(), i) && Ok(l, s0)
      requires a == Entry(inodes[i], blocks, INDIRECT) && l.datastart <= a < l.size
      requires TxOnly(l, S(), i, NDIRECT + w, NDIRECT + w + 1, logged0, logged)
      requires Covered(s0.blocks, blocks, logged0, logged)
      requires Entry(s0.inodes[i], s0.blocks, NDIRECT + w) == 0 ==>
                 Entry(inodes[i], blocks, NDIRECT + w) == 0
      modifies this`blocks, this`owner, this`logged
      ensures Extended(l, s0, S(), i) && TxOnly(l, S(), i, NDIRECT + w, NDIRECT + w + 1, logged0, logged)
      ensures addr == Entry(inodes[i], blocks, NDIRECT + w)
      ensures addr == 0 ==> UsedUpTo(l.FreeMap(), blocks, l.size)
      ensures addr != 0 ==> l.datastart <= addr < l.size && blocks[addr].Full()
      ensures Entry(old(inodes)[i], old(blocks), NDIRECT + w) != 0 ==> unchanged(this)
      ensures addr != 0 && Entry(s0.inodes[i], s0.blocks, NDIRECT + w) == 0 ==>
                blocks[addr] == ZeroBlock()
      ensures Covered(s0.blocks, blocks, logged0, logged)
    {
      assert InodeOk(S(), i) && SlotOk(S(), i, NDIRECT + w);
      addr := blocks[a].words[w];
      assert addr == Entry(inodes[i], blocks, NDIRECT + w);
      if addr == 0 {
        ghost var s1, logged1 := S(), logged;
        addr := AllocWord(i, w);
        CoveredTwice(s0.blocks, s1.blocks, blocks, logged0, logged1, logged);
        ExtendedTwice(l, s0, s1, S(), i);
        assert SlotOk(S(), i, NDIRECT + w);
        assert addr != 0 ==> OwnerOk(l, S(), addr);
        TxMore(l, s1, S(), i, NDIRECT + w, NDIRECT + w + 1, NDIRECT + w + 1, logged0, logged1, logged);
      } else {
        assert OwnerOk(l, S(), addr);
      }
    }

    method BmapDirect(i: int, bn: int) returns (addr: int)
      requires Valid() && 0 <= i < |inodes| && 0 <= bn < NDIRECT
      modifies this`blocks, this`inodes, this`owner, this`logged
      ensures Extended(l, old(S()), S(), i) && TxOnly(l, S(), i, bn, bn + 1, old(logged), logged)
      ensures addr == Entry(inodes[i], blocks, bn)
      ensures addr == 0 ==> UsedUpTo(l.FreeMap(), blocks, l.size)
      ensures addr != 0 ==> l.datastart <= addr < l.size && blocks[addr].Full()
      ensures Entry(old(inodes)[i], old(blocks), bn) != 0 ==> unchanged(this)
      ensures addr != 0 && Entry(old(inodes)[i], old(blocks), bn) == 0 ==> blocks[addr] == ZeroBlock()
      ensures Covered(old(blocks), blocks, old(logged), logged)
    {
      assert InodeOk(S(), i) && SlotOk(S(), i, bn);
      ExtendedSame(l, S(), i);
      addr := inodes[i].addrs[bn];
      if addr == 0 {
        addr := AllocAddr(i, bn);
        assert addr == Entry(inodes[i], blocks, bn);
        OneInTx(l, S(), i, bn, addr, old(logged), logged);
      } else {
        assert OwnerOk(l, S(), addr);
      }
    }

    /** bmap(): the block of index bn, allocated with the indirect block if need be; 0
        when the disk is full. */
    method Bmap(i: int, bn: int) returns (addr: int)
      requires Valid() && 0 <= i < |inodes| && 0 <= bn < MAXFILE
      modifies this`blocks, this`inodes, this`owner, this`logged
      ensures Extended(l, old(S()), S(), i) && TxOnly(l, S(), i, bn, bn + 1, old(logged), logged)
      ensures addr == Entry(inodes[i], blocks, bn)
      ensures addr == 0 ==> UsedUpTo(l.FreeMap(), blocks, l.size)
      ensures addr != 0 ==> l.datastart <= addr < l.size && blocks[addr].Full()
      ensures Entry(old(inodes)[i], old(blocks), bn) != 0 ==> unchanged(this)
      ensures addr != 0 && Entry(old(inodes)[i], old(blocks), bn) == 0 ==> blocks[addr] == ZeroBlock()
      ensures Covered(old(blocks), blocks, old(logged), logged)
    {
      assert InodeOk(S(), i) && SlotOk(S(), i, bn) && SlotOk(S(), i, INDIRECT);
      ExtendedSame(l, S(), i);
      if bn < NDIRECT {
        addr := BmapDirect(i, bn);
        return;
      }
      addr := inodes[i].addrs[NDIRECT];
      if addr == 0 {
        addr := AllocAddr(i, NDIRECT);
        OneInTx(l, S(), i, INDIRECT, addr, old(logged), logged);
        TxIndirect(l, S(), i, bn, old(logged), logged);
        if addr == 0 {
          return;
        }
      } else {
        assert OwnerOk(l, S(), addr);
      }
      addr := BmapIndirect(i, bn - NDIRECT, addr, old(S()), old(logged));
    }

    /** One turn of readi()'s loop: the rest of a block, or what is left of the request. */
    method ReadStep(i: int, pos: int, left: int, ghost f: seq<int>) returns (chunk: seq<int>)
      requires Valid() && 0 <= i < |inodes| && 0 <= pos && 0 < left
      requires pos + left <= inodes[i].size == |f|
      requires f == File(inodes[i], blocks)
      modifies this
      ensures unchanged(this)
      ensures 0 < |chunk| <= left && chunk == f[pos..pos + |chunk|]
    {
      assert InodeOk(S(), i) && MappedTo(S(), i, inodes[i].size) && HasBlock(S(), i, pos / BSIZE);
      var addr := Bmap(i, pos / BSIZE);
      var m := if left < BSIZE - pos % BSIZE then left else BSIZE - pos % BSIZE;
      ReadChunk(l, S(), i, pos, m, addr);
      chunk := Bytes(blocks[addr])[pos % BSIZE..pos % BSIZE + m];
    }

    method ReadLoop(i: int, off: int, end: int, writable: nat, ghost f: seq<int>) returns (r: int, data: seq<int>)
      requires Valid() && 0 <= i < |inodes| && 0 <= off <= end <= inodes[i].size == |f|
      requires f == File(inodes[i], blocks)
      modifies this
      ensures unchanged(this) && |data| <= end - off && data == f[off..off + |data|]
      ensures r == if end - off > writable then -1 else end - off
      ensures |data| <= writable && (r >= 0 ==> |data| == end - off)
    {
      data := [];
      var tot := 0;
      while tot < end - off
        invariant 0 <= tot <= end - off && unchanged(this) && data == f[off..off + tot] && |data| == tot <= writable
      {
        var chunk := ReadStep(i, off + tot, end - off - tot, f);
        if tot + |chunk| > writable {
          return -1, data;
        }
        SliceJoin(f, off, off + tot, off + tot + |chunk|);
        data := data + chunk;
        tot := tot + |chunk|;
      }
      r := tot;
    }

    /** readi(): the file's bytes from off, at most n of them; it allocates nothing.  User
        memory takes the first `writable` bytes; when there are more the result is -1. */
    method Readi(i: int, off: int, n: int, writable: nat) returns (r: int, data: seq<int>)
      requires Valid() && 0 <= i < |inodes| && 0 <= off < 0x1_0000_0000 && 0 <= n < 0x1_0000_0000
      modifies this
      ensures unchanged(this)
      ensures off > inodes[i].size || off + n >= 0x1_0000_0000 ==> r == 0 && data == []
      ensures off <= inodes[i].size && off + n < 0x1_0000_0000 ==>
                var k := if n < inodes[i].size - off then n else inodes[i].size - off;
                && (if k > writable then r == -1 else r == k == |data|)
                && |data| <= k <= |File(inodes[i], blocks)| - off && |data| <= writable
                && data == File(inodes[i], blocks)[off..off + |data|]
    {
      assert InodeOk(S(), i);
      WrapsIsOverflow(off, n);
      if off > inodes[i].size || Wraps(off, n) {
        return 0, [];
      }
      r, data := ReadLoop(i, off, if off + n > inodes[i].size then inodes[i].size else off + n, writable,
                          File(inodes[i], blocks));
    }

    /** The rest of the turn: the bytes go into block addr. */
    method WriteBlock(i: int, off: int, data: seq<int>, tot: int, addr: int, ghost s0: State,
                      ghost logged0: set<int>) returns (m: int)
      requires Writing(l, s0, S(), i, off, data, tot) && tot < |data| && AreBytes(data)
      requires WriteLogged(l, S(), i, off, |data|, tot, logged0, logged)
      requires Covered(s0.blocks, blocks, logged0, logged)
      requires addr == Entry(inodes[i], blocks, (off + tot) / BSIZE) && l.datastart <= addr < l.size
      requires blocks[addr].Full()
      modifies this`blocks, this`logged
      ensures 0 < m && tot + m == ChunkEnd(off, |data|, tot) <= |data|
      ensures Writing(l, s0, S(), i, off, data, tot + m)
      ensures WriteLogged(l, S(), i, off, |data|, tot + m, logged0, logged)
      ensures Covered(s0.blocks, blocks, logged0, logged)
    {
      ghost var logged1 := logged;
      ghost var s1, lo, hi := S(), off / BSIZE, (off + |data| + BSIZE - 1) / BSIZE;
      var o := (off + tot) % BSIZE;
      m := if |data| - tot < BSIZE - o then |data| - tot else BSIZE - o;
      var page := PageWith(Bytes(blocks[addr]), o, data, tot, m);
      assert IsPage(page);
      BlockInWrite(off, |data|, tot);
      assert HasBlock(s1, i, (off + tot) / BSIZE);
      WritingMore(l, s0, s1, i, off, data, tot, m, page);
      DataStep(l, s1, i, (off + tot) / BSIZE, page);
      blocks := blocks[addr := Pack(page)];
      assert S() == DataWritten(s1, addr, page);
      TxKept(l, s1, S(), i, lo, hi, logged0, logged, {addr});
      logged := logged + {addr};
      CoveredTwice(s0.blocks, s1.blocks, blocks, logged0, logged1, logged);
    }

    /** One turn of writei()'s loop: m = 0 when bmap() finds no block, or the chunk cannot be
        copied in, of which nothing is copied then. */
    method WriteStep(i: int, off: int, data: seq<int>, readable: int, tot: int, ghost s0: State,
                     ghost logged0: set<int>) returns (m: int)
      requires Writing(l, s0, S(), i, off, data, tot) && tot < |data| && AreBytes(data)
      requires WriteLogged(l, S(), i, off, |data|, tot, logged0, logged)
      requires Covered(s0.blocks, blocks, logged0, logged)
      modifies this`blocks, this`inodes, this`owner, this`logged
      ensures 0 <= m && tot + m <= |data| && Writing(l, s0, S(), i, off, data, tot + m)
      ensures WriteLogged(l, S(), i, off, |data|, tot + m, logged0, logged)
      ensures Covered(s0.blocks, blocks, logged0, logged)
      ensures m == 0 ==> UsedUpTo(l.FreeMap(), blocks, l.size) || ChunkEnd(off, |data|, tot) > readable
      ensures m > 0 ==> tot + m <= readable
    {
      ghost var s1, logged1 := S(), logged;
      BlockInWrite(off, |data|, tot);
      var bn := (off + tot) / BSIZE;
      var addr := Bmap(i, bn);
      CoveredTwice(s0.blocks, s1.blocks, blocks, logged0, logged1, logged);
      WritingMapped(l, s0, s1, S(), i, off, data, tot);
      ghost var lo, hi := off / BSIZE, (off + |data| + BSIZE - 1) / BSIZE;
      TxWiden(l, S(), i, bn, bn + 1, lo, hi, logged1, logged);
      TxMore(l, s1, S(), i, lo, hi, hi, logged0, logged1, logged);
      if addr == 0 || ChunkEnd(off, |data|, tot) > readable {
        return 0;
      }
      m := WriteBlock(i, off, data, tot, addr, s0, logged0);
    }

    /** The loop of writei(): how many bytes it wrote; fewer than asked when the disk is
        full. */
    method WriteLoop(i: int, off: int, data: seq<int>, readable: int) returns (tot: int)
      requires Valid() && 0 <= i < |inodes| && 0 <= off <= inodes[i].size && off + |data| <= MAXFILE * BSIZE
      requires AreBytes(data)
      modifies this`blocks, this`inodes, this`owner, this`logged
      ensures 0 <= tot <= |data| && Writing(l, old(S()), S(), i, off, data, tot)
      ensures WriteLogged(l, S(), i, off, |data|, tot, old(logged), logged)
      ensures Covered(old(blocks), blocks, old(logged), logged)
      ensures tot < |data| ==> UsedUpTo(l.FreeMap(), blocks, l.size) || ChunkEnd(off, |data|, tot) > readable
      ensures tot > 0 ==> tot <= readable
    {
      WritingNothing(l, S(), i, off, data);
      tot := 0;
      var m := 1;
      while tot < |data| && m != 0
        invariant 0 <= tot <= |data| && 0 <= m && Writing(l, old(S()), S(), i, off, data, tot)
        invariant WriteLogged(l, S(), i, off, |data|, tot, old(logged), logged)
        invariant Covered(old(blocks), blocks, old(logged), logged)
        invariant (m == 0 ==> tot < |data|) && (tot > 0 ==> tot <= readable)
        invariant m == 0 ==> UsedUpTo(l.FreeMap(), blocks, l.size) || ChunkEnd(off, |data|, tot) > readable
        decreases |data| - tot, m
      {
        m := WriteStep(i, off, data, readable, tot, old(S()), old(logged));
        tot := tot + m;
      }
    }

    /** iupdate(): the copy of inode i on disk becomes that in memory. */
    method Iupdate(i: int)
      requires Valid() && 0 <= i < |inodes|
      modifies this`blocks, this`logged
      ensures |inodes[i].addrs| == NDIRECT + 1 && S() == InodeWritten(l, old(S()), i) && Valid()
      ensures logged == old(logged) + {InodeBlock(l, i)} && Covered(old(blocks), blocks, old(logged), logged)
      ensures SameOwned(old(S()), blocks)
      ensures UsedUpTo(l.FreeMap(), old(blocks), l.size) ==> UsedUpTo(l.FreeMap(), blocks, l.size)
    {
      InodeStep(l, S(), i);
      InodePlace(l, i);
      var b := InodeBlock(l, i);
      blocks := blocks[b := WithInode(blocks[b], i % IPB, inodes[i])];
      logged := logged + {b};
    }

    /** The end of writei(): the new size, and iupdate(). */
    method WriteEnd(i: int, off: int, data: seq<int>, tot: int, ghost s0: State, ghost logged0: set<int>)
      requires Writing(l, s0, S(), i, off, data, tot)
      requires WriteLogged(l, S(), i, off, |data|, tot, logged0, logged)
      requires Covered(s0.blocks, blocks, logged0, logged)
      modifies this`blocks, this`inodes, this`logged
      ensures Valid() && Spliced(s0, S(), i, off, data[..tot]) && OthersSame(s0, S(), i)
      ensures OwnersGrew(s0, S(), i)
      ensures WriteLogged(l, S(), i, off, |data|, |data|, logged0, logged)
      ensures Covered(s0.blocks, blocks, logged0, logged) && (Stored(l, s0) ==> Stored(l, S()))
      ensures UsedUpTo(l.FreeMap(), old(blocks), l.size) ==> UsedUpTo(l.FreeMap(), blocks, l.size)
    {
      ghost var s1, logged1 := S(), logged;
      ghost var n := Max(s0.inodes[i].size, off + tot);
      WriteFinish(l, s0, s1, i, off, data, tot, logged0, logged1);
      if off + tot > inodes[i].size {
        inodes := inodes[i := Inode(off + tot, inodes[i].addrs)];
      }
      assert s1.inodes[i] == Inode(s1.inodes[i].size, s1.inodes[i].addrs);
      assert S() == Resized(s1, i, n);
      Iupdate(i);
      CoveredTwice(s0.blocks, s1.blocks, blocks, logged0, logged1, logged);
    }

    /** writei(): it refuses exactly for a bad offset or length; otherwise the bytes are
        spliced into the file, all of them unless the disk is full or the next chunk, which
        ends with its block or with the data, cannot be copied in; no other file changes. */
    method Writei(i: int, off: int, data: seq<int>, readable: int) returns (r: int)
      requires Valid() && 0 <= i < |inodes| && 0 <= off < 0x1_0000_0000 && |data| < 0x1_0000_0000
      requires AreBytes(data)
      modifies this`blocks, this`inodes, this`owner, this`logged
      ensures WriteResult(l, old(S()), S(), i, off, data, readable, r)
      ensures r == -1 <==>
              off > old(inodes)[i].size || off + |data| >= 0x1_0000_0000 || off + |data| > MAXFILE * BSIZE
      ensures 0 <= r < |data| && !UsedUpTo(l.FreeMap(), blocks, l.size) ==>
                readable < |data| && readable < r + BSIZE - (off + r) % BSIZE
      ensures WriteLogged(l, S(), i, off, |data|, |data|, old(logged), logged)
      ensures Covered(old(blocks), blocks, old(logged), logged) && (Stored(l, old(S())) ==> Stored(l, S()))
    {
      assert InodeOk(S(), i);
      OthersItself(S(), i);
      WrapsIsOverflow(off, |data|);
      if off > inodes[i].size || Wraps(off, |data|) {
        return -1;
      }
      if off + |data| > MAXFILE * BSIZE {
        return -1;
      }
      r := WriteLoop(i, off, data, readable);
      WriteEnd(i, off, data, r, old(S()), old(logged));
    }

    /** What was written is read: the bytes of a complete writei() are the first that a
        readi() of at least as many delivers from there, however many more it asks for. */
    method WriteThenRead(i: int, off: int, data: seq<int>, n: int, writable: nat)
      returns (r: int, r': int, got: seq<int>)
      requires Valid() && 0 <= i < |inodes| && 0 <= off && |data| <= n && off + n < 0x1_0000_0000
      requires AreBytes(data) && n <= writable
      modifies this
      ensures Valid() && r' == |got|
      ensures r >= 0 ==> r <= |got| && r <= |data| && got[..r] == data[..r]
    {
      ghost var s0 := S();
      r := Writei(i, off, data, |data|);
      ghost var s1 := S();
      r', got := Readi(i, off, n, writable);
      if r >= 0 {
        WrittenIsThere(s0, s1, i, off, data[..r]);
      }
    }

    /** bfree(): its panic, "freeing free block", cannot happen to an owned block. */
    method Bfree(b: int)
      requires Shaped(l, S()) && MarksOk(l, S()) && b in owner && l.datastart <= b < l.size
      modifies this`blocks, this`owner, this`logged
      ensures S() == FreedBlock(l, old(S()), b) && Shaped(l, S()) && MarksOk(l, S())
      ensures logged == old(logged) + {BitBlock(l.FreeMap(), b)}
      ensures Covered(old(blocks), blocks, old(logged), logged)
    {
      FreeStep(l, S(), b);
      var marked := BlockBit(blocks[BitBlock(l.FreeMap(), b)], b % BPB);
      assert marked;
      blocks := MarkIn(l.FreeMap(), blocks, b, false);
      owner := owner - {b};
      logged := logged + {BitBlock(l.FreeMap(), b)};
      forall k | 0 <= k < |inodes| ensures InodeOk(S(), k) {
        assert InodeOk(old(S()), k);
      }
    }

    method TruncWord(i: int, j: int, b: int, ghost s0: State, ghost logged0: set<int>)
      requires Covered(s0.blocks, blocks, logged0, logged)
      requires 0 <= j < NINDIRECT && Truncating(l, s0, S(), i, NDIRECT + j)
      requires b == Entry(s0.inodes[i], s0.blocks, NDIRECT + j)
      modifies this`blocks, this`owner, this`logged
      ensures Truncating(l, s0, S(), i, NDIRECT + j + 1)
      ensures Covered(s0.blocks, blocks, logged0, logged)
    {
      ghost var s, logged1 := S(), logged;
      if b != 0 {
        StillOwned(l, s0, s, i, NDIRECT + j);
        Bfree(b);
        CoveredTwice(s0.blocks, s.blocks, blocks, logged0, logged1, logged);
      }
      assert Cleared(s.inodes[i].addrs, NDIRECT + j + 1) == s.inodes[i].addrs;
      assert S() == WithAddrs(S(), i, NDIRECT + j + 1);
      TruncMore(l, s0, s, S(), i, NDIRECT + j);
    }

    /** The indirect half of itrunc(), up to the pointer to the indirect block; s is the
        state just before that block is freed. */
    method TruncIndirect(i: int, ghost s0: State, ghost logged0: set<int>) returns (ghost s: State)
      requires Covered(s0.blocks, blocks, logged0, logged)
      requires Truncating(l, s0, S(), i, NDIRECT) && Entry(s0.inodes[i], s0.blocks, INDIRECT) != 0
      modifies this`blocks, this`owner, this`logged
      ensures Truncating(l, s0, s, i, INDIRECT) && Entry(s0.inodes[i], s0.blocks, INDIRECT) in s.owner
      ensures l.datastart <= Entry(s0.inodes[i], s0.blocks, INDIRECT) < l.size
      ensures S() == FreedBlock(l, s, Entry(s0.inodes[i], s0.blocks, INDIRECT))
      ensures Covered(s0.blocks, blocks, logged0, logged)
    {
      StillOwned2(l, s0, S(), i, NDIRECT);
      var a := inodes[i].addrs[NDIRECT];
      assert a == Entry(s0.inodes[i], s0.blocks, INDIRECT);
      var words := blocks[a].words;
      var j := 0;
      while j < NINDIRECT
        invariant 0 <= j <= NINDIRECT && Truncating(l, s0, S(), i, NDIRECT + j)
        invariant words == s0.blocks[a].words && Covered(s0.blocks, blocks, logged0, logged)
      {
        assert words[j] == Entry(s0.inodes[i], s0.blocks, NDIRECT + j);
        TruncWord(i, j, words[j], s0, logged0);
        j := j + 1;
      }
      StillOwned2(l, s0, S(), i, INDIRECT);
      s := S();
      ghost var logged1 := logged;
      Bfree(a);
      CoveredTwice(s0.blocks, s.blocks, blocks, logged0, logged1, logged);
    }

    method TruncDirect(i: int, k: int, ghost s0: State, ghost logged0: set<int>)
      requires Covered(s0.blocks, blocks, logged0, logged)
      requires 0 <= k < NDIRECT && Truncating(l, s0, S(), i, k)
      modifies this`blocks, this`inodes, this`owner, this`logged
      ensures Truncating(l, s0, S(), i, k + 1)
      ensures Covered(s0.blocks, blocks, logged0, logged)
    {
      ghost var s, logged1 := S(), logged;
      assert inodes[i].addrs[k] == Entry(s0.inodes[i], s0.blocks, k);
      var addrs := inodes[i].addrs;
      assert |addrs| == NDIRECT + 1 && addrs == Cleared(s0.inodes[i].addrs, k);
      if addrs[k] != 0 {
        StillOwned(l, s0, s, i, k);
        Bfree(addrs[k]);
        CoveredTwice(s0.blocks, s.blocks, blocks, logged0, logged1, logged);
      }
      inodes := inodes[i := Inode(inodes[i].size, addrs[k := 0])];
      assert addrs[k := 0] == Cleared(addrs, k + 1);
      TruncMore(l, s0, s, S(), i, k);
    }

    /** itrunc(): exactly the blocks of inode i are freed, each once. */
    method Itrunc(i: int)
      requires Valid() && 0 <= i < |inodes|
      modifies this`blocks, this`inodes, this`owner, this`logged
      ensures Truncated(l, old(S()), S(), i)
      ensures Covered(old(blocks), blocks, old(logged), logged) && (Stored(l, old(S())) ==> Stored(l, S()))
    {
      ghost var s0 := S();
      assert InodeOk(s0, i);
      TruncBegin(l, s0, i);
      var k := 0;
      while k < NDIRECT
        invariant 0 <= k <= NDIRECT && Truncating(l, s0, S(), i, k)
        invariant Covered(s0.blocks, blocks, old(logged), logged)
      {
        TruncDirect(i, k, s0, old(logged));
        k := k + 1;
      }
      var ind := inodes[i].addrs[NDIRECT];
      assert ind == Entry(s0.inodes[i], s0.blocks, INDIRECT);
      ghost var s;
      if ind != 0 {
        s := TruncIndirect(i, s0, old(logged));
      } else {
        TruncSkip(l, s0, S(), i);
        s := S();
      }
      TruncEnd(l, s0, s, S(), i);
      var addrs := inodes[i].addrs[NDIRECT := 0];
      assert addrs == NO_ADDRS;
      inodes := inodes[i := Inode(0, addrs)];
      ghost var s2, logged2 := S(), logged;
      TruncUpdated(l, s0, s2, i);
      Iupdate(i);
      CoveredTwice(s0.blocks, s2.blocks, blocks, old(logged), logged2, logged);
    }

    /** One turn of filewrite(): a transaction that writes at most 3072 bytes. */
    method WriteChunk(i: int, off: int, data: seq<int>, readable: int, at: int) returns (r: int, n1: int, ghost t: Tx)
      requires Valid() && 0 <= i < |inodes| && 0 <= off && 0 <= off + at < 0x1_0000_0000
      requires 0 <= at < |data| < 0x8000_0000 && AreBytes(data)
      modifies this`blocks, this`inodes, this`owner, this`logged
      ensures 0 < n1 <= 3072 && at + n1 <= |data|
      ensures t == Tx(old(S()), S(), at, n1, r, logged) && TxOk(l, i, off, data, readable, t)
    {
      n1 := if |data| - at > 3072 then 3072 else |data| - at;
      logged := {};
      ghost var s0 := S();
      r := Writei(i, off + at, data[at..at + n1], readable - at);
      t := Tx(s0, S(), at, n1, r, logged);
      ChunkIsTx(l, i, off, data, readable, t);
    }

    /** One turn of filewrite()'s loop, which goes on if all bytes asked for were written. */
    method WriteTurn(i: int, off: int, data: seq<int>, readable: int, at: int, ghost s0: State, ghost txs0: seq<Tx>)
      returns (r: int, go: bool, ghost txs: seq<Tx>)
      requires Chain(l, s0, S(), i, off, data, readable, at, txs0) && WentOn(txs0) && 0 <= at < |data| < 0x8000_0000
      requires Ok(l, s0) && Valid() && 0 <= i < |s0.inodes| == |inodes| && 0 <= off < 0x1_0000_0000 && AreBytes(data)
      modifies this`blocks, this`inodes, this`owner, this`logged
      ensures Valid() && |s0.inodes| == |inodes| && r <= |data| - at && (go ==> r > 0)
      ensures Chain(l, s0, S(), i, off, data, readable, Advanced(at, r), txs) && (go <==> WentOn(txs))
    {
      ghost var s1 := S();
      ChainWrote(l, s0, s1, i, off, data, readable, at, txs0);
      OffsetFits(l, s0, s1, i, off, data, at);
      var n1;
      ghost var t;
      r, n1, t := WriteChunk(i, off, data, readable, at);
      ChainMore(l, s0, s1, i, off, data, readable, at, txs0, t);
      go, txs := r == n1, txs0 + [t];
      assert txs[|txs| - 1] == t;
    }

    /** filewrite() on a file: `done` bytes are written, all of them if nothing fails, in
        transactions of at most 3072 bytes, one after the other. */
    method Filewrite(i: int, off: int, data: seq<int>, readable: int)
      returns (ret: int, off': int, ghost done: int, ghost txs: seq<Tx>)
      requires Valid() && 0 <= i < |inodes| && 0 <= off < 0x1_0000_0000 && AreBytes(data) && |data| < 0x8000_0000
      modifies this`blocks, this`inodes, this`owner, this`logged
      ensures off' == off + done && ret == if done == |data| then |data| else -1
      ensures WroteFile(l, old(S()), S(), i, off, data, done)
      ensures done < |data| ==> !WentOn(txs) && Stopped(l, old(S()), S(), i, off, data, readable, done)
      ensures Chain(l, old(S()), S(), i, off, data, readable, done, txs)
    {
      ghost var s0 := S();
      var at, go := 0, true;
      off', txs := off, [];
      while at < |data| && go
        invariant Valid() && |s0.inodes| == |inodes| && 0 <= at <= |data| && off' == off + at
        invariant Chain(l, s0, S(), i, off, data, readable, at, txs) && (go <==> WentOn(txs))
        decreases |data| - at, go
      {
        var r;
        r, go, txs := WriteTurn(i, off, data, readable, at, s0, txs);
        if r > 0 {
          off' := off' + r;
        }
        at := Advanced(at, r);
      }
      ChainWrote(l, s0, S(), i, off, data, readable, at, txs);
      ret, done := if at == |data| then |data| else -1, at;
    }
  }
}
