/** Files across crashes: the file system of Files on the redo log of RedoLog. */
module FilesCrash {
  import opened Blocks
  import opened RedoLog
  import opened Bitmap
  import opened Files

  /** The layout has this log, before the inodes. */
  ghost predicate HasLog(l: Layout) {
    LayoutOk(l) && l.nlog == LOGBLOCKS + 1
  }

  ghost predicate InOrder(l: Layout, s: State) {
    Ok(l, s) && Stored(l, s)
  }

  /** Disk d holds the file system in state s, whatever is in the log area. */
  ghost predicate Holds(l: Layout, d: Image, s: State)
    requires HasLog(l)
  {
    InOrder(l, s) && SameHome(d, s.blocks, l.logstart)
  }

  lemma SameHomeTrans(a: Image, b: Image, c: Image, start: nat)
    requires SameHome(a, b, start) && SameHome(b, c, start)
    ensures SameHome(a, c, start)
  {
  }

  lemma HomeBlocks(l: Layout, d: Image, s: State)
    requires HasLog(l) && Holds(l, d, s)
    ensures BlocksOk(l, d) && SameOwned(s, d)
    ensures forall b {:trigger d[b]} :: l.inodestart <= b < l.size ==> d[b] == s.blocks[b]
  {
    forall b | l.inodestart <= b < l.size ensures d[b] == s.blocks[b] && d[b].Full() {
      assert !InLog(l.logstart, b) && s.blocks[b].Full();
    }
    forall b | b in s.owner && 0 <= b < |s.blocks| ensures d[b] == s.blocks[b] {
      assert OwnerOk(l, s, b);
    }
  }

  /** Mounting such a disk gives the same inodes and the same files, in order. */
  lemma HeldFiles(l: Layout, d: Image, s: State)
    requires HasLog(l) && Holds(l, d, s)
    ensures BlocksOk(l, d) && InodesOn(l, d) == s.inodes && InOrder(l, State(d, s.inodes, s.owner))
    ensures forall i {:trigger File(s.inodes[i], d)} :: 0 <= i < |s.inodes| ==>
              File(s.inodes[i], d) == File(s.inodes[i], s.blocks)
  {
    var s' := WithBlocks(s, d);
    HomeBlocks(l, d, s);
    FrameOwned(l, s, d);
    forall b | 0 <= b < l.size ensures UsedOk(l, s', b) {
      assert UsedOk(l, s, b) && d[BitBlock(l.FreeMap(), b)] == s.blocks[BitBlock(l.FreeMap(), b)];
    }
    forall i | 0 <= i < |s.inodes| ensures StoredAt(l, s', i) {
      InodePlace(l, i);
      assert StoredAt(l, s, i);
    }
    StoredInodes(l, s');
    forall i | 0 <= i < |s.inodes| ensures File(s.inodes[i], d) == File(s.inodes[i], s.blocks) {
      assert Kept(s, s', i);
      KeptFile(l, s, s', i);
    }
  }

  // ----- an operation is a transaction -----

  lemma {:induction false} SetToSeq(s: set<int>) returns (q: seq<int>)
    ensures |q| == |s| && Distinct(q) && forall b :: b in q <==> b in s
    decreases |s|
  {
    q := [];
    if s != {} {
      assert (forall b :: b !in s) ==> s == {};
      var x :| x in s;
      var rest := SetToSeq(s - {x});
      q := [x] + rest;
      assert forall b :: b in q <==> b == x || b in rest;
    }
  }

  /** The group commit t turns blocks d into e. */
  ghost predicate Turns(l: Layout, d: Image, t: Txn, e: Image)
    requires HasLog(l)
  {
    |d| == l.size && GoodTxn(l.size, l.logstart, t) && Overlay(d, t.lh, t.data) == e
  }

  ghost predicate HomeLogged(l: Layout, logged: set<int>) {
    forall b :: b in logged ==> l.inodestart <= b < l.size
  }

  /** The entries are what e has in the blocks that they name, and d has the others. */
  ghost predicate EntriesOf(d: Image, e: Image, lh: seq<int>, data: seq<Block>) {
    && |lh| == |data| && Distinct(lh) && |d| == |e|
    && (forall k {:trigger lh[k]} :: 0 <= k < |lh| ==> 0 <= lh[k] < |d| && data[k] == e[lh[k]])
    && forall b {:trigger b in lh} :: 0 <= b < |e| && b !in lh ==> e[b] == d[b]
  }

  lemma OverlayIsAt(d: Image, e: Image, lh: seq<int>, data: seq<Block>, b: int)
    requires EntriesOf(d, e, lh, data) && 0 <= b < |e|
    ensures Overlay(d, lh, data)[b] == e[b]
  {
    OverlayAt(d, lh, data);
    if b in lh {
      var k :| 0 <= k < |lh| && lh[k] == b;
      assert Overlay(d, lh, data)[lh[k]] == data[k];
    }
  }

  lemma OverlayIs(d: Image, e: Image, lh: seq<int>, data: seq<Block>)
    requires EntriesOf(d, e, lh, data)
    ensures Overlay(d, lh, data) == e
  {
    forall b | 0 <= b < |e| ensures Overlay(d, lh, data)[b] == e[b] {
      OverlayIsAt(d, e, lh, data, b);
    }
  }

  /** An operation that logged every home block it changed, within what the log holds, is a
      transaction with the same effect. */
  lemma OperationIsTxn(l: Layout, d: Image, e: Image, logged: set<int>) returns (t: Txn)
    requires HasLog(l) && |d| == l.size && Covered(d, e, {}, logged) && |logged| <= LOGBLOCKS
    requires HomeLogged(l, logged)
    ensures Turns(l, d, t, e) && forall b :: b in t.lh <==> b in logged
  {
    var lh := SetToSeq(logged);
    forall k | 0 <= k < |lh| ensures lh[k] in logged {
      assert lh[k] in lh;
    }
    t := Txn(lh, seq(|lh|, k requires 0 <= k < |lh| => e[lh[k]]));
    forall b | 0 <= b < |e| && b !in lh ensures e[b] == d[b] {
      assert b !in logged;
    }
    OverlayIs(d, e, t.lh, t.data);
  }

  // ----- whole runs -----

  ghost predicate Leads(l: Layout, states: seq<State>, ts: seq<Txn>, k: int)
    requires HasLog(l) && 0 <= k < |ts| && |states| == |ts| + 1
  {
    Turns(l, states[k].blocks, ts[k], states[k + 1].blocks)
  }

  /** File system states, all in order, and the transactions that lead from each to the
      next. */
  ghost predicate History(l: Layout, states: seq<State>, ts: seq<Txn>)
    requires HasLog(l)
  {
    && |states| == |ts| + 1
    && (forall k {:trigger InOrder(l, states[k])} :: 0 <= k < |states| ==> InOrder(l, states[k]))
    && (forall k {:trigger Leads(l, states, ts, k)} :: 0 <= k < |ts| ==> Leads(l, states, ts, k))
  }

  lemma {:induction false} HistoryAtomic(l: Layout, states: seq<State>, ts: seq<Txn>)
    requires HasLog(l) && History(l, states, ts)
    ensures |states[0].blocks| == l.size && GoodTxns(l.size, l.logstart, ts)
    ensures Atomic(states[0].blocks, l.logstart, ts) == states[|ts|].blocks
    decreases |ts|
  {
    assert InOrder(l, states[0]);
    if ts != [] {
      var n := |ts| - 1;
      var front, early := ts[..n], states[..n + 1];
      forall k | 0 <= k < |early| ensures InOrder(l, early[k]) {
        assert InOrder(l, states[k]);
      }
      forall k | 0 <= k < n ensures Leads(l, early, front, k) {
        assert Leads(l, states, ts, k);
      }
      HistoryAtomic(l, early, front);
      assert Leads(l, states, ts, n);
      assert forall k :: 0 <= k < n ==> ts[k] == front[k];
    }
  }

  /** Through any number of power cycles, each cut anywhere in a commit or in recoveries,
      the disk holds the file system exactly as the last transaction whose header write
      reached the disk left it: in order, with its files. */
  lemma FilesSurvive(l: Layout, d: Image, cs: seq<Cycle>, states: seq<State>)
    requires HasLog(l) && Clean(d, l.logstart) && GoodCycles(|d|, l.logstart, cs)
    requires History(l, states, AllApplied(cs)) && SameHome(d, states[0].blocks, l.logstart)
    ensures Holds(l, RunCycles(d, l.logstart, cs), states[|states| - 1])
  {
    var ts, start := AllApplied(cs), l.logstart;
    HistoryAtomic(l, states, ts);
    CrashAtomicity(d, start, cs);
    AtomicSameHome(d, states[0].blocks, start, ts);
    SameHomeTrans(RunCycles(d, start, cs), Atomic(d, start, ts), states[|ts|].blocks, start);
    assert InOrder(l, states[|states| - 1]);
  }

  // ----- a crash during filewrite() -----

  /** Each of filewrite()'s transactions was committed as the group commit of the same
      index. */
  ghost predicate Committed(l: Layout, txs: seq<Tx>, ts: seq<Txn>)
    requires HasLog(l)
  {
    && |ts| == |txs|
    && forall k {:trigger ts[k]} :: 0 <= k < |ts| ==> Turns(l, txs[k].before.blocks, ts[k], txs[k].after.blocks)
  }

  /** The blocks that a transaction changed are logged, home blocks, and fit in the log. */
  ghost predicate LoggedOk(l: Layout, t: Tx) {
    && |t.before.blocks| == l.size && Covered(t.before.blocks, t.after.blocks, {}, t.logged)
    && HomeLogged(l, t.logged) && |t.logged| <= LOGBLOCKS
  }

  ghost predicate AllLogged(l: Layout, txs: seq<Tx>) {
    forall k {:trigger txs[k]} :: 0 <= k < |txs| ==> LoggedOk(l, txs[k])
  }

  lemma LoggedAt(l: Layout, s0: State, s: State, i: int, off: int, data: seq<int>, readable: int, done: int,
                 txs: seq<Tx>, k: int)
    requires l.size <= BPB && Chain(l, s0, s, i, off, data, readable, done, txs) && 0 <= k < |txs|
    ensures LoggedOk(l, txs[k])
  {
    assert |txs[k].after.blocks| == l.size;
    assert Covered(txs[k].before.blocks, txs[k].after.blocks, {}, txs[k].logged);
  }

  lemma ChainLogged(l: Layout, s0: State, s: State, i: int, off: int, data: seq<int>, readable: int, done: int,
                    txs: seq<Tx>)
    requires l.size <= BPB && Chain(l, s0, s, i, off, data, readable, done, txs)
    ensures AllLogged(l, txs)
  {
    forall k | 0 <= k < |txs| ensures LoggedOk(l, txs[k]) {
      LoggedAt(l, s0, s, i, off, data, readable, done, txs, k);
    }
  }

  lemma TxIsTxn(l: Layout, t: Tx) returns (u: Txn)
    requires HasLog(l) && LoggedOk(l, t)
    ensures Turns(l, t.before.blocks, u, t.after.blocks)
  {
    u := OperationIsTxn(l, t.before.blocks, t.after.blocks, t.logged);
  }

  /** There are such commits. */
  lemma {:induction false} CommitsExist(l: Layout, txs: seq<Tx>) returns (ts: seq<Txn>)
    requires HasLog(l) && AllLogged(l, txs)
    ensures Committed(l, txs, ts)
    decreases |txs|
  {
    ts := [];
    if txs != [] {
      var rest := CommitsExist(l, txs[1..]);
      var u := TxIsTxn(l, txs[0]);
      ts := [u] + rest;
    }
  }

  lemma TxKeepsStored(l: Layout, i: int, off: int, data: seq<int>, readable: int, t: Tx)
    requires TxOk(l, i, off, data, readable, t) && Stored(l, t.before)
    ensures Stored(l, t.after)
  {
  }

  lemma {:induction false} ChainAtomic(l: Layout, s0: State, s: State, i: int, off: int, data: seq<int>, readable: int,
                                       done: int, txs: seq<Tx>, ts: seq<Txn>)
    requires HasLog(l) && InOrder(l, s0) && Chain(l, s0, s, i, off, data, readable, done, txs)
    requires Committed(l, txs, ts)
    ensures GoodTxns(l.size, l.logstart, ts) && |s0.blocks| == l.size
    ensures Atomic(s0.blocks, l.logstart, ts) == s.blocks && Stored(l, s)
    decreases |txs|
  {
    if txs != [] {
      var n := |txs| - 1;
      assert forall k :: 0 <= k < n ==> ts[..n][k] == ts[k];
      ChainPrefix(l, s0, s, i, off, data, readable, done, txs, n);
      ChainAtomic(l, s0, StateAfter(s0, txs[..n]), i, off, data, readable, DoneAfter(txs[..n]), txs[..n], ts[..n]);
      TxKeepsStored(l, i, off, data, readable, txs[n]);
      assert Turns(l, txs[n].before.blocks, ts[n], txs[n].after.blocks);
    }
  }

  /** The state after the first a transactions. */
  lemma PrefixState(l: Layout, s0: State, s: State, i: int, off: int, data: seq<int>, readable: int, done: int,
                    txs: seq<Tx>, ts: seq<Txn>, a: int)
    requires HasLog(l) && InOrder(l, s0) && Chain(l, s0, s, i, off, data, readable, done, txs)
    requires 0 <= i < |s0.inodes| && 0 <= off
    requires 0 <= a <= |txs| == |ts| && Committed(l, txs[..a], ts[..a])
    ensures var s' := StateAfter(s0, txs[..a]);
            && WroteFile(l, s0, s', i, off, data, DoneAfter(txs[..a])) && InOrder(l, s')
            && |s0.blocks| == l.size && GoodTxns(l.size, l.logstart, ts[..a])
            && Atomic(s0.blocks, l.logstart, ts[..a]) == s'.blocks
  {
    var s', n := StateAfter(s0, txs[..a]), DoneAfter(txs[..a]);
    ChainPrefix(l, s0, s, i, off, data, readable, done, txs, a);
    ChainWrote(l, s0, s', i, off, data, readable, n, txs[..a]);
    ChainAtomic(l, s0, s', i, off, data, readable, n, txs[..a], ts[..a]);
  }

  lemma CycleHolds(l: Layout, d: Image, d0: Image, s: State, c: Cycle)
    requires HasLog(l) && Clean(d, l.logstart) && GoodCycle(|d|, l.logstart, c) && SameHome(d, d0, l.logstart)
    requires GoodTxns(|d|, l.logstart, Applied(c)) && InOrder(l, s)
    requires Atomic(d0, l.logstart, Applied(c)) == s.blocks
    ensures Holds(l, RunCycle(d, l.logstart, c), s)
  {
    var start, ts := l.logstart, Applied(c);
    CycleAtomic(d, start, c);
    AtomicSameHome(d, d0, start, ts);
    SameHomeTrans(RunCycle(d, start, c), Atomic(d, start, ts), s.blocks, start);
  }

  /** After a crash in the commit of transaction m the disk holds what those before it
      made, or those up to it once its header is written. */
  lemma CrashHolds(l: Layout, d: Image, s0: State, s': State, ts: seq<Txn>, m: nat, cut: nat, retries: seq<nat>)
    requires HasLog(l) && Clean(d, l.logstart) && SameHome(d, s0.blocks, l.logstart) && |s0.blocks| == l.size
    requires m < |ts| && GoodTxn(l.size, l.logstart, ts[m]) && GoodTxns(l.size, l.logstart, ts[..m])
    requires GoodTxns(l.size, l.logstart, ts[..if cut > |ts[m].lh| then m + 1 else m]) && InOrder(l, s')
    requires Atomic(s0.blocks, l.logstart, ts[..if cut > |ts[m].lh| then m + 1 else m]) == s'.blocks
    ensures GoodCycle(|d|, l.logstart, Cycle(ts[..m], ts[m], cut, retries))
    ensures Holds(l, RunCycle(d, l.logstart, Cycle(ts[..m], ts[m], cut, retries)), s')
  {
    var c := Cycle(ts[..m], ts[m], cut, retries);
    assert Applied(c) == ts[..if cut > |ts[m].lh| then m + 1 else m];
    CycleHolds(l, d, s0.blocks, s', c);
  }

  lemma CommittedGood(l: Layout, txs: seq<Tx>, ts: seq<Txn>, m: nat)
    requires HasLog(l) && Committed(l, txs, ts) && m < |ts|
    ensures GoodTxn(l.size, l.logstart, ts[m]) && GoodTxns(l.size, l.logstart, ts[..m])
    ensures Committed(l, txs[..m], ts[..m]) && Committed(l, txs[..m + 1], ts[..m + 1])
  {
    assert forall k :: 0 <= k < m ==> ts[..m][k] == ts[k];
    assert forall k :: 0 <= k < m + 1 ==> ts[..m + 1][k] == ts[k];
  }

  /** A power failure during filewrite(), at any write of the commit of transaction m and at
      any writes of any recoveries: in the end the disk holds the old file with a prefix of
      the data in it, that of the transactions before m, and of m itself exactly when its
      header write reached the disk; all other files are the same. */
  lemma FilewriteCrash(l: Layout, d: Image, s0: State, s: State, i: int, off: int, data: seq<int>, readable: int,
                       done: int, txs: seq<Tx>, ts: seq<Txn>, m: nat, cut: nat, retries: seq<nat>)
    requires HasLog(l) && Clean(d, l.logstart) && Holds(l, d, s0) && 0 <= i < |s0.inodes| && 0 <= off
    requires Chain(l, s0, s, i, off, data, readable, done, txs) && Committed(l, txs, ts) && m < |ts|
    ensures var written := txs[..if cut > |ts[m].lh| then m + 1 else m];
            && GoodCycle(|d|, l.logstart, Cycle(ts[..m], ts[m], cut, retries))
            && WroteFile(l, s0, StateAfter(s0, written), i, off, data, DoneAfter(written))
            && Holds(l, RunCycle(d, l.logstart, Cycle(ts[..m], ts[m], cut, retries)), StateAfter(s0, written))
  {
    var a := if cut > |ts[m].lh| then m + 1 else m;
    CommittedGood(l, txs, ts, m);
    PrefixState(l, s0, s, i, off, data, readable, done, txs, ts, a);
    CrashHolds(l, d, s0, StateAfter(s0, txs[..a]), ts, m, cut, retries);
  }

  /** The commits that filewrite() makes are there, and a crash in any of them is as said. */
  lemma CrashInFilewrite(l: Layout, d: Image, s0: State, s: State, i: int, off: int, data: seq<int>, readable: int,
                         done: int, txs: seq<Tx>, m: nat, cut: nat, retries: seq<nat>)
    returns (ts: seq<Txn>)
    requires HasLog(l) && l.size <= BPB && Clean(d, l.logstart) && Holds(l, d, s0)
    requires 0 <= i < |s0.inodes| && 0 <= off && m < |txs|
    requires Chain(l, s0, s, i, off, data, readable, done, txs)
    ensures Committed(l, txs, ts)
    ensures var written := txs[..if cut > |ts[m].lh| then m + 1 else m];
            && GoodCycle(|d|, l.logstart, Cycle(ts[..m], ts[m], cut, retries))
            && WroteFile(l, s0, StateAfter(s0, written), i, off, data, DoneAfter(written))
            && Holds(l, RunCycle(d, l.logstart, Cycle(ts[..m], ts[m], cut, retries)), StateAfter(s0, written))
  {
    ChainLogged(l, s0, s, i, off, data, readable, done, txs);
    ts := CommitsExist(l, txs);
    FilewriteCrash(l, d, s0, s, i, off, data, readable, done, txs, ts, m, cut, retries);
  }

  // ----- group commits -----

  /** One operation between begin_op() and end_op(): a transaction of the filewrite() in
      question, or an operation of another process and the blocks it logged. */
  datatype Op = Mine(t: Tx) | Other(logged: set<int>)

  function LoggedBy(op: Op): set<int> {
    match op
    case Mine(t) => t.logged
    case Other(logged) => logged
  }

  /** What other operations do: they keep the file system in order and log every block they
      change, home blocks all of them; file i is not theirs and stays as it is. */
  ghost predicate OtherOk(l: Layout, i: int, s: State, s': State, logged: set<int>) {
    && 0 <= i < |s.inodes| == |s'.inodes| && InOrder(l, s')
    && s'.inodes[i].size == s.inodes[i].size && File(s'.inodes[i], s'.blocks) == File(s.inodes[i], s.blocks)
    && Covered(s.blocks, s'.blocks, {}, logged) && HomeLogged(l, logged)
  }

  /** A transaction of a filewrite() on another file is such an operation. */
  lemma OtherWrite(l: Layout, i: int, j: int, off: int, data: seq<int>, readable: int, t: Tx)
    requires Stored(l, t.before) && 0 <= i < |t.before.inodes| && i != j && TxOk(l, j, off, data, readable, t)
    ensures OtherOk(l, i, t.before, t.after, t.logged)
  {
    assert t.after.inodes[i] == t.before.inodes[i];
  }

  /** An operation leads from s to s' while filewrite() comes from byte `at` to at'. */
  ghost predicate OpStep(l: Layout, i: int, off: int, data: seq<int>, readable: int, s: State, at: int, op: Op,
                         s': State, at': int) {
    match op
    case Mine(t) =>
      t.before == s && t.after == s' && t.at == at && at' == Advanced(at, t.r) && TxOk(l, i, off, data, readable, t)
    case Other(logged) => at' == at && OtherOk(l, i, s, s', logged)
  }

  /** A run of operations of all processes, filewrite()'s among them: the states between
      them and how far filewrite() has come in each. */
  datatype Run = Run(states: seq<State>, ats: seq<int>, ops: seq<Op>)

  ghost predicate StepsAt(l: Layout, i: int, off: int, data: seq<int>, readable: int, r: Run, k: int)
    requires 0 <= k < |r.ops| && |r.states| == |r.ats| == |r.ops| + 1
  {
    OpStep(l, i, off, data, readable, r.states[k], r.ats[k], r.ops[k], r.states[k + 1], r.ats[k + 1])
  }

  ghost predicate RunOk(l: Layout, i: int, off: int, data: seq<int>, readable: int, r: Run) {
    && |r.states| == |r.ats| == |r.ops| + 1 && r.ats[0] == 0 && InOrder(l, r.states[0])
    && 0 <= i < |r.states[0].inodes| && 0 <= off
    && forall k {:trigger StepsAt(l, i, off, data, readable, r, k)} :: 0 <= k < |r.ops| ==>
         StepsAt(l, i, off, data, readable, r, k)
  }

  /** f0 with the first `at` bytes of data in it, or f0 when off is past its end. */
  function Prefixed(f0: seq<int>, off: int, data: seq<int>, at: int): seq<int>
    requires 0 <= at <= |data| && 0 <= off
  {
    if off > |f0| then f0 else Splice(f0, off, data[..at])
  }

  ghost predicate HasPrefix(f0: seq<int>, s: State, i: int, off: int, data: seq<int>, at: int) {
    && 0 <= i < |s.inodes| && 0 <= at <= |data| && 0 <= off && (off > |f0| ==> at == 0)
    && File(s.inodes[i], s.blocks) == Prefixed(f0, off, data, at)
  }

  /** The bytes of the next chunk, from what writei() says about them. */
  lemma PrefixMore(f0: seq<int>, f1: seq<int>, off: int, data: seq<int>, at: int, n: int, r: int)
    requires 0 <= off && 0 <= at && 0 <= r <= n && at + n <= |data| && off + at <= |f1| && (off > |f0| ==> at == 0)
    requires f1 == Prefixed(f0, off, data, at)
    ensures off <= |f0| && Splice(f1, off + at, data[at..at + n][..r]) == Prefixed(f0, off, data, at + r)
  {
    SpliceNext(f0, off, data, at, n, r);
  }

  lemma KeepsStart(l: Layout, s: State, i: int, off: int, data: seq<int>)
    requires Ok(l, s) && 0 <= i < |s.inodes| && 0 <= off
    ensures HasPrefix(File(s.inodes[i], s.blocks), s, i, off, data, 0)
  {
    var f0 := File(s.inodes[i], s.blocks);
    assert data[..0] == [];
    assert off <= |f0| ==> Splice(f0, off, []) == f0;
  }

  ghost predicate KeepsAt(l: Layout, f0: seq<int>, i: int, off: int, data: seq<int>, r: Run, k: int)
    requires 0 <= k < |r.states| == |r.ats|
  {
    InOrder(l, r.states[k]) && HasPrefix(f0, r.states[k], i, off, data, r.ats[k])
  }

  ghost predicate KeepsTo(l: Layout, f0: seq<int>, i: int, off: int, data: seq<int>, r: Run, n: int)
    requires n < |r.states| == |r.ats|
  {
    forall k {:trigger KeepsAt(l, f0, i, off, data, r, k)} :: 0 <= k <= n ==> KeepsAt(l, f0, i, off, data, r, k)
  }

  lemma NextOrder(l: Layout, f0: seq<int>, i: int, off: int, data: seq<int>, readable: int, r: Run, k: int)
    requires 0 <= k < |r.ops| && |r.states| == |r.ats| == |r.ops| + 1
    requires KeepsTo(l, f0, i, off, data, r, k) && StepsAt(l, i, off, data, readable, r, k)
    ensures InOrder(l, r.states[k + 1])
  {
    assert KeepsAt(l, f0, i, off, data, r, k);
    if r.ops[k].Mine? {
      TxKeepsStored(l, i, off, data, readable, r.ops[k].t);
    }
  }

  /** What an operation does to the bytes of file i. */
  ghost predicate OpBytes(i: int, off: int, data: seq<int>, s: State, at: int, op: Op, s': State, at': int) {
    match op
    case Mine(t) =>
      && 0 < t.n && 0 <= at && at + t.n <= |data| && -1 <= t.r <= t.n && at' == Advanced(at, t.r)
      && if t.r < 0 then s' == s else Spliced(s, s', i, off + at, data[at..at + t.n][..t.r])
    case Other(logged) =>
      && at' == at && 0 <= i < |s.inodes| == |s'.inodes|
      && File(s'.inodes[i], s'.blocks) == File(s.inodes[i], s.blocks)
  }

  lemma StepBytes(l: Layout, i: int, off: int, data: seq<int>, readable: int, r: Run, k: int)
    requires 0 <= k < |r.ops| && |r.states| == |r.ats| == |r.ops| + 1 && StepsAt(l, i, off, data, readable, r, k)
    ensures OpBytes(i, off, data, r.states[k], r.ats[k], r.ops[k], r.states[k + 1], r.ats[k + 1])
  {
  }

  lemma NextPrefix(f0: seq<int>, i: int, off: int, data: seq<int>, s: State, at: int, op: Op, s': State, at': int)
    requires HasPrefix(f0, s, i, off, data, at) && OpBytes(i, off, data, s, at, op, s', at')
    ensures HasPrefix(f0, s', i, off, data, at')
  {
    if op.Mine? && op.t.r >= 0 {
      PrefixMore(f0, File(s.inodes[i], s.blocks), off, data, at, op.t.n, op.t.r);
    }
  }

  lemma KeepsNext(l: Layout, f0: seq<int>, i: int, off: int, data: seq<int>, readable: int, r: Run, k: int)
    requires 0 <= k < |r.ops| && |r.states| == |r.ats| == |r.ops| + 1
    requires KeepsTo(l, f0, i, off, data, r, k) && StepsAt(l, i, off, data, readable, r, k)
    ensures KeepsTo(l, f0, i, off, data, r, k + 1)
  {
    NextOrder(l, f0, i, off, data, readable, r, k);
    assert KeepsAt(l, f0, i, off, data, r, k);
    StepBytes(l, i, off, data, readable, r, k);
    NextPrefix(f0, i, off, data, r.states[k], r.ats[k], r.ops[k], r.states[k + 1], r.ats[k + 1]);
  }

  /** In every state of a run the file system is in order and file i has what filewrite()
      has written so far, whatever other operations come between its transactions. */
  lemma {:induction false} RunKeeps(l: Layout, i: int, off: int, data: seq<int>, readable: int, r: Run, k: int)
    requires RunOk(l, i, off, data, readable, r) && 0 <= k <= |r.ops|
    ensures KeepsTo(l, File(r.states[0].inodes[i], r.states[0].blocks), i, off, data, r, k)
    decreases k
  {
    if k == 0 {
      KeepsStart(l, r.states[0], i, off, data);
    } else {
      RunKeeps(l, i, off, data, readable, r, k - 1);
      assert StepsAt(l, i, off, data, readable, r, k - 1);
      KeepsNext(l, File(r.states[0].inodes[i], r.states[0].blocks), i, off, data, readable, r, k - 1);
    }
  }

  lemma RunAt(l: Layout, i: int, off: int, data: seq<int>, readable: int, r: Run, k: int)
    requires RunOk(l, i, off, data, readable, r) && 0 <= k <= |r.ops|
    ensures InOrder(l, r.states[k])
    ensures HasPrefix(File(r.states[0].inodes[i], r.states[0].blocks), r.states[k], i, off, data, r.ats[k])
  {
    RunKeeps(l, i, off, data, readable, r, k);
    assert KeepsAt(l, File(r.states[0].inodes[i], r.states[0].blocks), i, off, data, r, k);
  }

  /** The blocks that operations a up to b logged: absorbed when logged twice. */
  ghost function LoggedIn(ops: seq<Op>, a: int, b: int): set<int>
    requires 0 <= a <= b <= |ops|
    decreases b
  {
    if a == b then {} else LoggedIn(ops, a, b - 1) + LoggedBy(ops[b - 1])
  }

  lemma OpCovers(l: Layout, i: int, off: int, data: seq<int>, readable: int, s: State, at: int, op: Op, s': State,
                 at': int)
    requires OpStep(l, i, off, data, readable, s, at, op, s', at')
    ensures Covered(s.blocks, s'.blocks, {}, LoggedBy(op)) && HomeLogged(l, LoggedBy(op))
  {
  }

  lemma CoveredBoth(b0: Image, b1: Image, b2: Image, l1: set<int>, l2: set<int>)
    requires Covered(b0, b1, {}, l1) && Covered(b1, b2, {}, l2)
    ensures Covered(b0, b2, {}, l1 + l2)
  {
    forall b | 0 <= b < |b2| && b2[b] != b0[b] ensures b in l1 + l2 {
      assert b1[b] != b0[b] ==> b in l1;
    }
  }

  /** What a group logs covers what the group changes. */
  lemma {:induction false} GroupCovered(l: Layout, i: int, off: int, data: seq<int>, readable: int, r: Run, a: int,
                                        b: int)
    requires RunOk(l, i, off, data, readable, r) && 0 <= a <= b <= |r.ops|
    ensures Covered(r.states[a].blocks, r.states[b].blocks, {}, LoggedIn(r.ops, a, b))
    ensures HomeLogged(l, LoggedIn(r.ops, a, b))
    decreases b
  {
    if a < b {
      GroupCovered(l, i, off, data, readable, r, a, b - 1);
      assert StepsAt(l, i, off, data, readable, r, b - 1);
      OpCovers(l, i, off, data, readable, r.states[b - 1], r.ats[b - 1], r.ops[b - 1], r.states[b], r.ats[b]);
      CoveredBoth(r.states[a].blocks, r.states[b - 1].blocks, r.states[b].blocks, LoggedIn(r.ops, a, b - 1),
                  LoggedBy(r.ops[b - 1]));
    }
  }

  /** Group g is operations ends[g] up to ends[g + 1]; what it logs fits in the log, which
      begin_op() makes sure of. */
  ghost predicate GroupFits(ops: seq<Op>, ends: seq<int>, g: int)
    requires 0 <= g && g + 1 < |ends|
  {
    0 <= ends[g] <= ends[g + 1] <= |ops| && |LoggedIn(ops, ends[g], ends[g + 1])| <= LOGBLOCKS
  }

  ghost predicate Grouped(ops: seq<Op>, ends: seq<int>) {
    && |ends| > 0 && ends[0] == 0 && (forall g {:trigger ends[g]} :: 0 <= g < |ends| ==> 0 <= ends[g] <= |ops|)
    && forall g {:trigger GroupFits(ops, ends, g)} :: 0 <= g && g + 1 < |ends| ==> GroupFits(ops, ends, g)
  }

  /** The states in which the groups of a run begin and end. */
  ghost function Between(states: seq<State>, ends: seq<int>): (r: seq<State>)
    requires forall g {:trigger ends[g]} :: 0 <= g < |ends| ==> 0 <= ends[g] < |states|
    ensures |r| == |ends| && forall g {:trigger r[g]} :: 0 <= g < |r| ==> r[g] == states[ends[g]]
  {
    seq(|ends|, g requires 0 <= g < |ends| => states[ends[g]])
  }

  lemma GroupIsTxn(l: Layout, i: int, off: int, data: seq<int>, readable: int, r: Run, ends: seq<int>, g: int)
      returns (u: Txn)
    requires HasLog(l) && RunOk(l, i, off, data, readable, r) && Grouped(r.ops, ends) && 0 <= g && g + 1 < |ends|
    ensures Turns(l, r.states[ends[g]].blocks, u, r.states[ends[g + 1]].blocks)
  {
    assert GroupFits(r.ops, ends, g);
    RunAt(l, i, off, data, readable, r, ends[g]);
    GroupCovered(l, i, off, data, readable, r, ends[g], ends[g + 1]);
    u := OperationIsTxn(l, r.states[ends[g]].blocks, r.states[ends[g + 1]].blocks,
                        LoggedIn(r.ops, ends[g], ends[g + 1]));
  }

  /** Each of the groups was committed as one transaction of the log. */
  ghost predicate GroupsCommitted(l: Layout, between: seq<State>, ts: seq<Txn>)
    requires HasLog(l)
  {
    && |between| == |ts| + 1
    && forall k {:trigger Leads(l, between, ts, k)} :: 0 <= k < |ts| ==> Leads(l, between, ts, k)
  }

  /** There are such commits, one for each group. */
  lemma {:induction false} GroupsCommit(l: Layout, i: int, off: int, data: seq<int>, readable: int, r: Run,
                                        ends: seq<int>, n: int) returns (ts: seq<Txn>)
    requires HasLog(l) && RunOk(l, i, off, data, readable, r) && Grouped(r.ops, ends) && 0 <= n < |ends|
    ensures GroupsCommitted(l, Between(r.states, ends)[..n + 1], ts)
    decreases n
  {
    ts := [];
    if n > 0 {
      var between := Between(r.states, ends);
      var front := GroupsCommit(l, i, off, data, readable, r, ends, n - 1);
      var u := GroupIsTxn(l, i, off, data, readable, r, ends, n - 1);
      ts := front + [u];
      var early, before := between[..n + 1], between[..n];
      forall k | 0 <= k < n ensures Leads(l, early, ts, k) {
        assert k < n - 1 ==> Leads(l, before, front, k);
      }
    }
  }

  lemma HistoryPrefix(l: Layout, states: seq<State>, ts: seq<Txn>, a: nat)
    requires HasLog(l) && History(l, states, ts) && a <= |ts|
    ensures History(l, states[..a + 1], ts[..a])
  {
    var early, front := states[..a + 1], ts[..a];
    forall k | 0 <= k < |early| ensures InOrder(l, early[k]) {
      assert InOrder(l, states[k]);
    }
    forall k | 0 <= k < |front| ensures Leads(l, early, front, k) {
      assert Leads(l, states, ts, k);
    }
  }

  /** After a crash in commit m of a history the disk holds the state before it, or the one
      after it once its header is written. */
  lemma HistoryCrash(l: Layout, d: Image, states: seq<State>, ts: seq<Txn>, m: nat, cut: nat, retries: seq<nat>)
    requires HasLog(l) && Clean(d, l.logstart) && History(l, states, ts) && m < |ts|
    requires SameHome(d, states[0].blocks, l.logstart)
    ensures GoodCycle(|d|, l.logstart, Cycle(ts[..m], ts[m], cut, retries))
    ensures Holds(l, RunCycle(d, l.logstart, Cycle(ts[..m], ts[m], cut, retries)),
                  states[if cut > |ts[m].lh| then m + 1 else m])
  {
    var a := if cut > |ts[m].lh| then m + 1 else m;
    HistoryAtomic(l, states, ts);
    HistoryPrefix(l, states, ts, a);
    HistoryAtomic(l, states[..a + 1], ts[..a]);
    assert InOrder(l, states[a]);
    assert GoodTxns(l.size, l.logstart, ts[..m]) by {
      assert forall k :: 0 <= k < m ==> ts[..m][k] == ts[k];
    }
    CrashHolds(l, d, states[0], states[a], ts, m, cut, retries);
  }

  lemma RunIsHistory(l: Layout, i: int, off: int, data: seq<int>, readable: int, r: Run, ends: seq<int>, ts: seq<Txn>)
    requires HasLog(l) && RunOk(l, i, off, data, readable, r) && Grouped(r.ops, ends)
    requires GroupsCommitted(l, Between(r.states, ends), ts)
    ensures History(l, Between(r.states, ends), ts)
  {
    var between := Between(r.states, ends);
    forall k | 0 <= k < |between| ensures InOrder(l, between[k]) {
      RunAt(l, i, off, data, readable, r, ends[k]);
    }
  }

  /** A power failure while a filewrite() and any operations of other processes share group
      commits, at any write of commit m and at any writes of any recoveries: in the end the
      disk holds the file system in the state between two groups, in order; the file has the
      bytes that filewrite() had written by then, and those of group m exactly when its
      header write reached the disk. */
  lemma GroupCrash(l: Layout, d: Image, i: int, off: int, data: seq<int>, readable: int, r: Run, ends: seq<int>,
                   ts: seq<Txn>, m: nat, cut: nat, retries: seq<nat>)
    requires HasLog(l) && Clean(d, l.logstart) && RunOk(l, i, off, data, readable, r) && Holds(l, d, r.states[0])
    requires Grouped(r.ops, ends) && GroupsCommitted(l, Between(r.states, ends), ts) && m < |ts|
    ensures var e := ends[if cut > |ts[m].lh| then m + 1 else m];
            && GoodCycle(|d|, l.logstart, Cycle(ts[..m], ts[m], cut, retries))
            && Holds(l, RunCycle(d, l.logstart, Cycle(ts[..m], ts[m], cut, retries)), r.states[e])
            && HasPrefix(File(r.states[0].inodes[i], r.states[0].blocks), r.states[e], i, off, data, r.ats[e])
  {
    RunIsHistory(l, i, off, data, readable, r, ends, ts);
    HistoryCrash(l, d, Between(r.states, ends), ts, m, cut, retries);
    RunAt(l, i, off, data, readable, r, ends[if cut > |ts[m].lh| then m + 1 else m]);
  }

  /** So there are group commits, and a crash in any of them is as said. */
  lemma CrashInGroup(l: Layout, d: Image, i: int, off: int, data: seq<int>, readable: int, r: Run, ends: seq<int>,
                     m: nat, cut: nat, retries: seq<nat>) returns (ts: seq<Txn>, e: int)
    requires HasLog(l) && Clean(d, l.logstart) && RunOk(l, i, off, data, readable, r) && Holds(l, d, r.states[0])
    requires Grouped(r.ops, ends) && m + 1 < |ends|
    ensures GroupsCommitted(l, Between(r.states, ends), ts) && |ts| == |ends| - 1
    ensures e == ends[if cut > |ts[m].lh| then m + 1 else m] && 0 <= e <= |r.ops|
    ensures GoodCycle(|d|, l.logstart, Cycle(ts[..m], ts[m], cut, retries))
    ensures Holds(l, RunCycle(d, l.logstart, Cycle(ts[..m], ts[m], cut, retries)), r.states[e])
    ensures HasPrefix(File(r.states[0].inodes[i], r.states[0].blocks), r.states[e], i, off, data, r.ats[e])
  {
    ts := GroupsCommit(l, i, off, data, readable, r, ends, |ends| - 1);
    assert Between(r.states, ends)[..|ends|] == Between(r.states, ends);
    e := ends[if cut > |ts[m].lh| then m + 1 else m];
    GroupCrash(l, d, i, off, data, readable, r, ends, ts, m, cut, retries);
  }
}
