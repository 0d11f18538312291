/** writei() by several processes at once: their steps, in any order.

    A process that works on an inode holds its lock.  A step is what happens while a buffer
    is locked: balloc() takes a block under the lock of a free-map block; between that and
    putting the block into a slot other processes go on. */
module FilesShared {
  import opened Blocks
  import opened Bitmap
  import opened Files

  /** Steps of process p: taking and letting go of the lock of inode i; balloc(); putting its
      block into ip->addrs[k], or into word w of the indirect block; writing a page into the
      block at index bn; moving the size up; iupdate(). */
  datatype Step =
    | Lock(p: nat, i: int)
    | Unlock(p: nat, i: int)
    | Take(p: nat, b: int)
    | PutAddr(p: nat, i: int, k: int, b: int)
    | PutWord(p: nat, i: int, w: int, b: int)
    | Write(p: nat, i: int, bn: int, page: seq<int>)
    | Resize(p: nat, i: int, n: int)
    | Store(p: nat, i: int)

  /** The file system and who holds which inode. */
  datatype Shared = Shared(s: State, holder: map<int, nat>)

  predicate Holds(f: Shared, p: nat, i: int) {
    0 <= i < |f.s.inodes| && i in f.holder && f.holder[i] == p
  }

  ghost predicate IsPending(f: Shared, p: nat, b: int) {
    b in f.s.owner && f.s.owner[b] == Pending(p)
  }

  function AddrSlot(k: int): int {
    if k == NDIRECT then INDIRECT else k
  }

  ghost predicate Enabled(l: Layout, f: Shared, a: Step)
    requires Ok(l, f.s)
  {
    match a
    case Lock(p, i) => 0 <= i < |f.s.inodes| && i !in f.holder
    case Unlock(p, i) => Holds(f, p, i)
    case Take(p, b) => 0 <= b < l.size && !IsUsed(l.FreeMap(), f.s.blocks, b)
    case PutAddr(p, i, k, b) =>
      Holds(f, p, i) && IsPending(f, p, b) && 0 <= k <= NDIRECT && Entry(f.s.inodes[i], f.s.blocks, AddrSlot(k)) == 0
    case PutWord(p, i, w, b) =>
      && Holds(f, p, i) && IsPending(f, p, b) && 0 <= w < NINDIRECT
      && Entry(f.s.inodes[i], f.s.blocks, INDIRECT) != 0 && Entry(f.s.inodes[i], f.s.blocks, NDIRECT + w) == 0
    case Write(p, i, bn, page) => Holds(f, p, i) && 0 <= bn < MAXFILE && HasBlock(f.s, i, bn) && IsPage(page)
    case Resize(p, i, n) =>
      Holds(f, p, i) && f.s.inodes[i].size <= n <= MAXFILE * BSIZE && MappedTo(f.s, i, n)
    case Store(p, i) => Holds(f, p, i)
  }

  lemma StepDefined(l: Layout, f: Shared, a: Step)
    requires Ok(l, f.s) && Enabled(l, f, a)
    ensures forall i {:trigger f.s.inodes[i]} :: 0 <= i < |f.s.inodes| ==> |f.s.inodes[i].addrs| == NDIRECT + 1
    ensures a.PutWord? ==>
              var x := f.s.inodes[a.i].addrs[NDIRECT];
              0 <= x < |f.s.blocks| && f.s.blocks[x].Full()
    ensures a.Write? ==> 0 <= Entry(f.s.inodes[a.i], f.s.blocks, a.bn) < |f.s.blocks|
  {
    forall i | 0 <= i < |f.s.inodes| ensures |f.s.inodes[i].addrs| == NDIRECT + 1 {
      assert InodeOk(f.s, i);
    }
    if a.PutWord? {
      assert SlotOk(f.s, a.i, INDIRECT) && OwnerOk(l, f.s, f.s.inodes[a.i].addrs[NDIRECT]);
    } else if a.Write? {
      assert SlotOk(f.s, a.i, a.bn) && OwnerOk(l, f.s, Entry(f.s.inodes[a.i], f.s.blocks, a.bn));
    }
  }

  ghost function Next(l: Layout, f: Shared, a: Step): Shared
    requires Ok(l, f.s) && Enabled(l, f, a)
  {
    StepDefined(l, f, a);
    match a
    case Lock(p, i) => Shared(f.s, f.holder[i := p])
    case Unlock(p, i) => Shared(f.s, f.holder - {i})
    case Take(p, b) => Shared(TakenBy(l, f.s, b, p), f.holder)
    case PutAddr(p, i, k, b) => Shared(SetAddr(f.s, i, k, b), f.holder)
    case PutWord(p, i, w, b) => Shared(SetWord(f.s, f.s.inodes[i].addrs[NDIRECT], w, b, i), f.holder)
    case Write(p, i, bn, page) => Shared(DataWritten(f.s, Entry(f.s.inodes[i], f.s.blocks, bn), page), f.holder)
    case Resize(p, i, n) => Shared(Resized(f.s, i, n), f.holder)
    case Store(p, i) => Shared(InodeWritten(l, f.s, i), f.holder)
  }

  /** Files other than number j, and their inodes, are the same. */
  ghost predicate SameBut(s: State, s': State, j: int) {
    && |s'.inodes| == |s.inodes|
    && forall k {:trigger s'.inodes[k]} :: 0 <= k < |s.inodes| && k != j ==>
         s'.inodes[k] == s.inodes[k] && File(s'.inodes[k], s'.blocks) == File(s.inodes[k], s.blocks)
  }

  lemma KeptBut(l: Layout, s: State, s': State, j: int)
    requires Ok(l, s) && |s'.inodes| == |s.inodes|
    requires forall k :: 0 <= k < |s.inodes| && k != j ==> s'.inodes[k] == s.inodes[k] && Kept(s, s', k)
    ensures SameBut(s, s', j)
  {
    forall k | 0 <= k < |s.inodes| && k != j
      ensures s'.inodes[k] == s.inodes[k] && File(s'.inodes[k], s'.blocks) == File(s.inodes[k], s.blocks)
    {
      KeptFile(l, s, s', k);
    }
  }

  /** The inode that a step works on, or -1. */
  function WorksOn(a: Step): int {
    match a
    case PutAddr(p, i, k, b) => i
    case PutWord(p, i, w, b) => i
    case Write(p, i, bn, page) => i
    case Resize(p, i, n) => i
    case _ => -1
  }

  lemma ResizeOk(l: Layout, s: State, i: int, n: int)
    requires Ok(l, s) && 0 <= i < |s.inodes| && s.inodes[i].size <= n <= MAXFILE * BSIZE && MappedTo(s, i, n)
    ensures Ok(l, Resized(s, i, n))
    ensures forall k :: 0 <= k < |s.inodes| && k != i ==> Resized(s, i, n).inodes[k] == s.inodes[k]
  {
    var s' := Resized(s, i, n);
    forall k | 0 <= k < |s'.inodes| ensures InodeOk(s', k) && MappedTo(s', k, s'.inodes[k].size) {
      assert InodeOk(s, k) && MappedTo(s, k, s.inodes[k].size);
      forall bn | 0 <= bn && bn * BSIZE < s'.inodes[k].size ensures HasBlock(s', k, bn) {
        MappedAt(s, k, s'.inodes[k].size, bn);
      }
    }
    forall k, j | 0 <= k < |s'.inodes| && 0 <= j <= INDIRECT ensures SlotOk(s', k, j) {
      assert SlotOk(s, k, j) && InodeOk(s, k);
    }
    forall b | b in s'.owner ensures OwnerOk(l, s', b) {
      assert OwnerOk(l, s, b);
    }
    forall b | 0 <= b < l.size ensures UsedOk(l, s', b) {
      assert UsedOk(l, s, b);
    }
  }

  lemma AllocStep(l: Layout, f: Shared, a: Step)
    requires Ok(l, f.s) && Enabled(l, f, a) && (a.Take? || a.PutAddr? || a.PutWord?)
    ensures Ok(l, Next(l, f, a).s) && SameBut(f.s, Next(l, f, a).s, WorksOn(a))
    ensures a.Take? ==> a.b !in f.s.owner
  {
    var s' := Next(l, f, a).s;
    StepDefined(l, f, a);
    match a {
      case Take(p, b) => TakeStep(l, f.s, b, p);
      case PutAddr(p, i, k, b) => AttachAddr(l, f.s, i, k, b);
      case PutWord(p, i, w, b) => AttachWord(l, f.s, i, w, b);
    }
    forall k | 0 <= k < |f.s.inodes| ensures Kept(f.s, s', k) {
    }
    KeptBut(l, f.s, s', WorksOn(a));
  }

  lemma WriteSteps(l: Layout, f: Shared, a: Step)
    requires Ok(l, f.s) && Enabled(l, f, a) && (a.Write? || a.Resize? || a.Store?)
    ensures Ok(l, Next(l, f, a).s) && SameBut(f.s, Next(l, f, a).s, WorksOn(a))
  {
    var s' := Next(l, f, a).s;
    StepDefined(l, f, a);
    match a {
      case Write(p, i, bn, page) =>
        DataStep(l, f.s, i, bn, page);
        KeptBut(l, f.s, s', i);
      case Resize(p, i, n) =>
        ResizeOk(l, f.s, i, n);
      case Store(p, i) =>
        InodeStep(l, f.s, i);
    }
  }

  /** Every step of every process keeps the invariant and all files but the one that it
      works on, and no block is taken that a slot has or that is pending for another. */
  lemma SharedStep(l: Layout, f: Shared, a: Step)
    requires Ok(l, f.s) && Enabled(l, f, a)
    ensures Ok(l, Next(l, f, a).s) && SameBut(f.s, Next(l, f, a).s, WorksOn(a))
    ensures a.Take? ==> a.b !in f.s.owner
  {
    if a.Take? || a.PutAddr? || a.PutWord? {
      AllocStep(l, f, a);
    } else if a.Write? || a.Resize? || a.Store? {
      WriteSteps(l, f, a);
    }
  }

  /** A step of another process leaves the inode that p holds, and what is pending for p. */
  lemma OthersSpare(l: Layout, f: Shared, a: Step, p: nat, i: int)
    requires Ok(l, f.s) && Enabled(l, f, a) && Holds(f, p, i) && a.p != p
    ensures Holds(Next(l, f, a), p, i) && WorksOn(a) != i
    ensures forall b :: IsPending(f, p, b) ==> IsPending(Next(l, f, a), p, b)
  {
    SharedStep(l, f, a);
    StepDefined(l, f, a);
    if a.Take? {
      TakeStep(l, f.s, a.b, a.p);
    }
  }

  // ----- what each step is for -----

  /** balloc() marks the block, zeroes it, and has it pending for the process. */
  lemma TakeEffect(l: Layout, f: Shared, p: nat, b: int)
    requires Ok(l, f.s) && Enabled(l, f, Take(p, b))
    ensures var f' := Next(l, f, Take(p, b));
            && Ok(l, f'.s) && IsUsed(l.FreeMap(), f'.s.blocks, b) && IsPending(f', p, b)
            && f'.s.inodes == f.s.inodes && f'.holder == f.holder && b < |f'.s.blocks| && f'.s.blocks[b] == ZeroBlock()
            && forall c {:trigger IsUsed(l.FreeMap(), f'.s.blocks, c)} :: 0 <= c < l.size && c != b ==>
                 (IsUsed(l.FreeMap(), f'.s.blocks, c) <==> IsUsed(l.FreeMap(), f.s.blocks, c))
  {
    TakeStep(l, f.s, b, p);
    assert OwnerOk(l, TakenBy(l, f.s, b, p), b) && UsedOk(l, TakenBy(l, f.s, b, p), b);
    TakenBlocks(l, f.s, b);
  }

  /** The slot that a step fills. */
  function SlotOf(a: Step): int
    requires a.PutAddr? || a.PutWord?
  {
    if a.PutAddr? then AddrSlot(a.k) else NDIRECT + a.w
  }

  /** The slot names the block and the block is the inode's; the file reads as before. */
  lemma PutEffect(l: Layout, f: Shared, a: Step)
    requires Ok(l, f.s) && Enabled(l, f, a) && (a.PutAddr? || a.PutWord?)
    ensures var s' := Next(l, f, a).s;
            && Ok(l, s') && |s'.inodes| == |f.s.inodes| && Entry(s'.inodes[a.i], s'.blocks, SlotOf(a)) == a.b
            && OwnedBy(s', a.b, Slot(a.i, SlotOf(a)))
            && File(s'.inodes[a.i], s'.blocks) == File(f.s.inodes[a.i], f.s.blocks)
  {
    StepDefined(l, f, a);
    SharedStep(l, f, a);
    assert OwnerOk(l, f.s, a.b);
    if a.PutAddr? {
      AttachAddr(l, f.s, a.i, a.k, a.b);
    } else {
      AttachWord(l, f.s, a.i, a.w, a.b);
      assert SlotOk(f.s, a.i, INDIRECT) && OwnerOk(l, f.s, f.s.inodes[a.i].addrs[NDIRECT]);
    }
    assert Kept(f.s, Next(l, f, a).s, a.i);
    KeptFile(l, f.s, Next(l, f, a).s, a.i);
  }

  /** The page is in the file at its block index, and the rest of the file as before. */
  lemma WriteEffect(l: Layout, f: Shared, p: nat, i: int, bn: int, page: seq<int>)
    requires Ok(l, f.s) && Enabled(l, f, Step.Write(p, i, bn, page))
    ensures var s' := Next(l, f, Step.Write(p, i, bn, page)).s;
            && s'.inodes == f.s.inodes && forall pos {:trigger ByteAt(f.s.inodes[i], s'.blocks, pos)} ::
                 0 <= pos < MAXFILE * BSIZE ==>
                   ByteAt(f.s.inodes[i], s'.blocks, pos)
                   == if pos / BSIZE == bn then page[pos % BSIZE] else ByteAt(f.s.inodes[i], f.s.blocks, pos)
  {
    StepDefined(l, f, Step.Write(p, i, bn, page));
    DataStep(l, f.s, i, bn, page);
  }

  /** The file is as long as it was made, and its inode's copy on disk is made right. */
  lemma SizeEffect(l: Layout, f: Shared, a: Step)
    requires Ok(l, f.s) && Enabled(l, f, a) && (a.Resize? || a.Store?)
    ensures var s' := Next(l, f, a).s;
            && |s'.inodes| == |f.s.inodes| == l.Inodes() && BlocksOk(l, s'.blocks)
            && (a.Resize? ==> s'.inodes[a.i].size == a.n && s'.inodes[a.i].addrs == f.s.inodes[a.i].addrs
                              && s'.blocks == f.s.blocks)
            && (a.Store? ==> StoredAt(l, s', a.i) && s'.inodes == f.s.inodes)
  {
    SharedStep(l, f, a);
    if a.Store? {
      InodePlace(l, a.i);
      assert InodeOk(f.s, a.i);
      WithInodeAt(f.s.blocks[InodeBlock(l, a.i)], a.i % IPB, f.s.inodes[a.i], a.i % IPB);
    }
  }

  ghost predicate IsRun(l: Layout, f: Shared, run: seq<Step>)
    requires Ok(l, f.s)
    decreases |run|
  {
    run == [] || (Enabled(l, f, run[0]) && (SharedStep(l, f, run[0]); IsRun(l, Next(l, f, run[0]), run[1..])))
  }

  ghost function After(l: Layout, f: Shared, run: seq<Step>): Shared
    requires Ok(l, f.s) && IsRun(l, f, run)
    decreases |run|
  {
    if run == [] then f
    else
      SharedStep(l, f, run[0]);
      After(l, Next(l, f, run[0]), run[1..])
  }

  /** However the steps interleave, the invariant holds in every state, and so does block
      conservation. */
  lemma {:induction false} RunKeepsOk(l: Layout, f: Shared, run: seq<Step>)
    requires Ok(l, f.s) && IsRun(l, f, run)
    ensures Ok(l, After(l, f, run).s)
    decreases |run|
  {
    if run != [] {
      SharedStep(l, f, run[0]);
      RunKeepsOk(l, Next(l, f, run[0]), run[1..]);
    }
  }

  /** Whatever other processes do, the inode that p holds, its file, and the blocks pending
      for p stay as they are. */
  lemma {:induction false} HolderUndisturbed(l: Layout, f: Shared, run: seq<Step>, p: nat, i: int)
    requires Ok(l, f.s) && IsRun(l, f, run)
    requires Holds(f, p, i) && forall k :: 0 <= k < |run| ==> run[k].p != p
    ensures Ok(l, After(l, f, run).s) && Holds(After(l, f, run), p, i)
    ensures After(l, f, run).s.inodes[i] == f.s.inodes[i]
    ensures File(After(l, f, run).s.inodes[i], After(l, f, run).s.blocks) == File(f.s.inodes[i], f.s.blocks)
    ensures forall b :: IsPending(f, p, b) ==> IsPending(After(l, f, run), p, b)
    decreases |run|
  {
    if run != [] {
      SharedStep(l, f, run[0]);
      OthersSpare(l, f, run[0], p, i);
      assert forall k :: 0 <= k < |run| - 1 ==> run[1..][k] == run[k + 1];
      HolderUndisturbed(l, Next(l, f, run[0]), run[1..], p, i);
    }
  }

  // ----- one process appending a block -----

  lemma RunFirst(l: Layout, f: Shared, a: Step, rest: seq<Step>)
    requires Ok(l, f.s) && Enabled(l, f, a) && Ok(l, Next(l, f, a).s) && IsRun(l, Next(l, f, a), rest)
    ensures IsRun(l, f, [a] + rest) && After(l, f, [a] + rest) == After(l, Next(l, f, a), rest)
  {
    assert ([a] + rest)[1..] == rest;
  }

  /** The file with a page behind its last block. */
  lemma AppendedFile(s: State, s': State, i: int, bn: int, page: seq<int>)
    requires 0 <= i < |s.inodes| && i < |s'.inodes| && 0 <= bn < MAXFILE && IsPage(page)
    requires s.inodes[i].size == bn * BSIZE && s'.inodes[i].size == (bn + 1) * BSIZE
    requires forall pos :: 0 <= pos < bn * BSIZE ==>
               ByteAt(s'.inodes[i], s'.blocks, pos) == ByteAt(s.inodes[i], s.blocks, pos)
    requires forall pos :: bn * BSIZE <= pos < (bn + 1) * BSIZE ==>
               ByteAt(s'.inodes[i], s'.blocks, pos) == page[pos - bn * BSIZE]
    ensures File(s'.inodes[i], s'.blocks) == File(s.inodes[i], s.blocks) + page
  {
  }

  lemma InPage(bn: int, pos: int)
    requires 0 <= bn && 0 <= pos < (bn + 1) * BSIZE
    ensures pos / BSIZE == bn <==> bn * BSIZE <= pos
    ensures bn * BSIZE <= pos ==> pos % BSIZE == pos - bn * BSIZE
  {
  }

  lemma AppendedBytes(s: State, s3: State, s4: State, i: int, bn: int, page: seq<int>)
    requires 0 <= i < |s.inodes| && i < |s3.inodes| && i < |s4.inodes| && 0 <= bn < NDIRECT && IsPage(page)
    requires s.inodes[i].size == bn * BSIZE && s4.inodes[i].size == (bn + 1) * BSIZE
    requires s4.inodes[i].addrs == s3.inodes[i].addrs && s4.blocks == s3.blocks
    requires forall pos {:trigger ByteAt(s3.inodes[i], s3.blocks, pos)} ::
               0 <= pos < s.inodes[i].size && pos / BSIZE != bn && pos < MAXFILE * BSIZE ==>
                 ByteAt(s3.inodes[i], s3.blocks, pos) == ByteAt(s.inodes[i], s.blocks, pos)
    requires forall pos {:trigger ByteAt(s3.inodes[i], s3.blocks, pos)} ::
               0 <= pos < MAXFILE * BSIZE && pos / BSIZE == bn ==>
                 ByteAt(s3.inodes[i], s3.blocks, pos) == page[pos % BSIZE]
    ensures File(s4.inodes[i], s4.blocks) == File(s.inodes[i], s.blocks) + page
  {
    forall pos | 0 <= pos < (bn + 1) * BSIZE
      ensures ByteAt(s4.inodes[i], s4.blocks, pos)
              == if pos < bn * BSIZE then ByteAt(s.inodes[i], s.blocks, pos) else page[pos - bn * BSIZE]
    {
      InPage(bn, pos);
      assert ByteAt(s4.inodes[i], s4.blocks, pos) == ByteAt(s3.inodes[i], s3.blocks, pos);
    }
    AppendedFile(s, s4, i, bn, page);
  }

  /** Everything below n bytes is mapped when all below the size is, and the next block. */
  lemma MappedOneMore(l: Layout, s: State, i: int, bn: int)
    requires Ok(l, s) && 0 <= i < |s.inodes| && s.inodes[i].size == bn * BSIZE && 0 <= bn && HasBlock(s, i, bn)
    ensures MappedTo(s, i, (bn + 1) * BSIZE)
  {
    assert MappedTo(s, i, s.inodes[i].size);
    forall k | 0 <= k && k * BSIZE < (bn + 1) * BSIZE ensures HasBlock(s, i, k) {
      if k != bn {
        MappedAt(s, i, s.inodes[i].size, k);
      }
    }
  }

  /** The middle of the run: a block is taken and put into the slot, and the page into it. */
  lemma BlockAppended(l: Layout, f: Shared, p: nat, i: int, bn: int, b: int, page: seq<int>)
    returns (f1: Shared, f2: Shared, f3: Shared)
    requires Ok(l, f.s) && Holds(f, p, i) && 0 <= bn < NDIRECT && |f.s.inodes[i].addrs| == NDIRECT + 1
    requires f.s.inodes[i].addrs[bn] == 0 && 0 <= b < l.size && !IsUsed(l.FreeMap(), f.s.blocks, b) && IsPage(page)
    ensures Enabled(l, f, Take(p, b)) && f1 == Next(l, f, Take(p, b)) && Ok(l, f1.s)
    ensures Enabled(l, f1, PutAddr(p, i, bn, b)) && f2 == Next(l, f1, PutAddr(p, i, bn, b)) && Ok(l, f2.s)
    ensures Enabled(l, f2, Step.Write(p, i, bn, page)) && f3 == Next(l, f2, Step.Write(p, i, bn, page)) && Ok(l, f3.s)
    ensures Holds(f3, p, i) && f3.s.inodes[i].size == f.s.inodes[i].size && HasBlock(f3.s, i, bn)
    ensures forall pos {:trigger ByteAt(f3.s.inodes[i], f3.s.blocks, pos)} ::
              0 <= pos < f.s.inodes[i].size && pos / BSIZE != bn && pos < MAXFILE * BSIZE ==>
                ByteAt(f3.s.inodes[i], f3.s.blocks, pos) == ByteAt(f.s.inodes[i], f.s.blocks, pos)
    ensures forall pos {:trigger ByteAt(f3.s.inodes[i], f3.s.blocks, pos)} ::
              0 <= pos < MAXFILE * BSIZE && pos / BSIZE == bn ==>
                ByteAt(f3.s.inodes[i], f3.s.blocks, pos) == page[pos % BSIZE]
  {
    f1 := Next(l, f, Take(p, b));
    TakeEffect(l, f, p, b);
    SharedStep(l, f, Take(p, b));
    assert SameBut(f.s, f1.s, -1) && f1.s.inodes[i] == f.s.inodes[i];
    f2 := Next(l, f1, PutAddr(p, i, bn, b));
    PutEffect(l, f1, PutAddr(p, i, bn, b));
    assert OwnerOk(l, f1.s, b);
    f3 := Next(l, f2, Step.Write(p, i, bn, page));
    WriteEffect(l, f2, p, i, bn, page);
    SharedStep(l, f2, Step.Write(p, i, bn, page));
    StepDefined(l, f2, Step.Write(p, i, bn, page));
    DataStep(l, f2.s, i, bn, page);
    forall pos | 0 <= pos < f.s.inodes[i].size && pos / BSIZE != bn && pos < MAXFILE * BSIZE
      ensures ByteAt(f3.s.inodes[i], f3.s.blocks, pos) == ByteAt(f.s.inodes[i], f.s.blocks, pos)
    {
      assert File(f2.s.inodes[i], f2.s.blocks)[pos] == File(f1.s.inodes[i], f1.s.blocks)[pos];
      assert File(f1.s.inodes[i], f1.s.blocks)[pos] == File(f.s.inodes[i], f.s.blocks)[pos];
    }
  }

  /** The steps of a process that appends one block to a file make a run, after which the
      file is the old one with the page behind it, and its copy on disk is right. */
  lemma AppendAlone(l: Layout, f: Shared, p: nat, i: int, bn: int, b: int, page: seq<int>)
    requires Ok(l, f.s) && 0 <= i < |f.s.inodes| && i !in f.holder && IsPage(page)
    requires 0 <= bn < NDIRECT && f.s.inodes[i].size == bn * BSIZE && |f.s.inodes[i].addrs| == NDIRECT + 1
    requires f.s.inodes[i].addrs[bn] == 0 && 0 <= b < l.size && !IsUsed(l.FreeMap(), f.s.blocks, b)
    ensures var run := [Lock(p, i), Take(p, b), PutAddr(p, i, bn, b), Step.Write(p, i, bn, page),
                        Resize(p, i, (bn + 1) * BSIZE), Store(p, i), Unlock(p, i)];
            && IsRun(l, f, run)
            && var s' := After(l, f, run).s;
            && Ok(l, s') && |s'.inodes| == |f.s.inodes| == l.Inodes() && StoredAt(l, s', i)
            && File(s'.inodes[i], s'.blocks) == File(f.s.inodes[i], f.s.blocks) + page
  {
    hide Ok, StoredAt, SameBut, ByteAt, File, IsUsed, MappedTo, HasBlock;
    var f0 := Next(l, f, Lock(p, i));
    var f1, f2, f3 := BlockAppended(l, f0, p, i, bn, b, page);
    var size, store, unlock := Resize(p, i, (bn + 1) * BSIZE), Store(p, i), Unlock(p, i);
    MappedOneMore(l, f3.s, i, bn);
    SharedStep(l, f3, size);
    SizeEffect(l, f3, size);
    var f4 := Next(l, f3, size);
    SharedStep(l, f4, store);
    SizeEffect(l, f4, store);
    var f5 := Next(l, f4, store);
    var f6 := Next(l, f5, unlock);
    InodeStep(l, f4.s, i);
    assert File(f5.s.inodes[i], f5.s.blocks) == File(f4.s.inodes[i], f4.s.blocks);
    AppendedBytes(f.s, f3.s, f4.s, i, bn, page);
    RunFirst(l, f5, unlock, []);
    RunFirst(l, f4, store, [unlock]);
    RunFirst(l, f3, size, [store, unlock]);
    RunFirst(l, f2, Step.Write(p, i, bn, page), [size, store, unlock]);
    RunFirst(l, f1, PutAddr(p, i, bn, b), [Step.Write(p, i, bn, page), size, store, unlock]);
    RunFirst(l, f0, Take(p, b), [PutAddr(p, i, bn, b), Step.Write(p, i, bn, page), size, store, unlock]);
    RunFirst(l, f, Lock(p, i),
             [Take(p, b), PutAddr(p, i, bn, b), Step.Write(p, i, bn, page), size, store, unlock]);
  }
}
