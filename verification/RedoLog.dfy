/** The on-disk redo log of kernel/log.c and its crash behaviour. */
module RedoLog {
  // The log occupies blocks `start .. start + LOGBLOCKS`: a header block holding a count
  // and that many home block numbers, then one block per entry.  The functions below give
  // the exact sequence of block writes that commit() and recover_from_log() issue; the
  // lemmas say what survives when only a prefix of such a sequence reaches the disk.

  import opened Blocks

  const LOGBLOCKS := 30

  ghost predicate InLog(start: nat, b: int) {
    start <= b <= start + LOGBLOCKS
  }

  ghost predicate Distinct(s: seq<int>) {
    forall i, j :: 0 <= i < j < |s| ==> s[i] != s[j]
  }

  /** Home block numbers a header may carry: on the disk, outside the log, each once. */
  ghost predicate GoodDests(size: nat, start: nat, lh: seq<int>) {
    && |lh| <= LOGBLOCKS
    && Distinct(lh)
    && (forall i :: 0 <= i < |lh| ==> 0 <= lh[i] < size && !InLog(start, lh[i]))
  }

  predicate GoodHeader(h: Block) {
    h.Full() && 0 <= h.words[0] <= LOGBLOCKS
  }

  function Dests(h: Block): (lh: seq<int>)
    requires GoodHeader(h)
    ensures |lh| == h.words[0]
  {
    h.words[1..1 + h.words[0]]
  }

  ghost predicate WellFormed(d: Image, start: nat) {
    && start + LOGBLOCKS < |d|
    && GoodHeader(d[start])
    && GoodDests(|d|, start, Dests(d[start]))
  }

  ghost predicate Clean(d: Image, start: nat) {
    start + LOGBLOCKS < |d| && d[start].Full() && d[start].words[0] == 0
  }

  /** write_head(): the count and the first `|lh|` entries are overwritten, the
      stale rest of the buffer is written back as it is. */
  function HeaderBlock(h: Block, lh: seq<int>): (r: Block)
    requires h.Full() && |lh| <= LOGBLOCKS
    ensures GoodHeader(r) && Dests(r) == lh
  {
    Block([|lh|] + lh + h.words[1 + |lh|..])
  }

  ghost function LogWrites(start: nat, data: seq<Block>): seq<Write> {
    seq(|data|, i requires 0 <= i < |data| => Write(start + 1 + i, data[i]))
  }

  ghost predicate Nats(lh: seq<int>) {
    forall i :: 0 <= i < |lh| ==> 0 <= lh[i]
  }

  ghost function InstallWrites(lh: seq<int>, data: seq<Block>): seq<Write>
    requires |lh| == |data| && Nats(lh)
  {
    seq(|lh|, i requires 0 <= i < |lh| => Write(lh[i], data[i]))
  }

  ghost function LogData(d: Image, start: nat): (data: seq<Block>)
    requires WellFormed(d, start)
    ensures |data| == |Dests(d[start])|
  {
    d[start + 1..start + 1 + |Dests(d[start])|]
  }

  /** The writes that make a commit durable: the log blocks, then the header. */
  ghost function PublishWrites(h: Block, start: nat, lh: seq<int>, data: seq<Block>): seq<Write>
    requires h.Full() && |lh| == |data| <= LOGBLOCKS
  {
    LogWrites(start, data) + [Write(start, HeaderBlock(h, lh))]
  }

  /** The writes that empty a log: its entries into place, then a zero count. */
  ghost function EmptyWrites(h: Block, start: nat, lh: seq<int>, data: seq<Block>): seq<Write>
    requires h.Full() && |lh| == |data| && Nats(lh)
  {
    InstallWrites(lh, data) + [Write(start, HeaderBlock(h, []))]
  }

  /** The writes of commit() for the blocks `lh` whose cached contents are `data`,
      when the header block on disk is `h`. */
  ghost function CommitWrites(h: Block, start: nat, lh: seq<int>, data: seq<Block>): seq<Write>
    requires h.Full() && |lh| == |data| <= LOGBLOCKS && Nats(lh)
  {
    if lh == [] then []
    else PublishWrites(h, start, lh, data) + EmptyWrites(HeaderBlock(h, lh), start, lh, data)
  }

  /** The writes of recover_from_log() when it finds the image `d`. */
  ghost function RecoveryWrites(d: Image, start: nat): seq<Write>
    requires WellFormed(d, start)
  {
    EmptyWrites(d[start], start, Dests(d[start]), LogData(d, start))
  }

  /** The image in which each block `lh[i]` holds `data[i]`. */
  ghost function Overlay(d: Image, lh: seq<int>, data: seq<Block>): (r: Image)
    requires |lh| == |data|
    requires forall i :: 0 <= i < |lh| ==> 0 <= lh[i] < |d|
    ensures |r| == |d|
  {
    Apply(d, InstallWrites(lh, data))
  }

  lemma OverlayAt(d: Image, lh: seq<int>, data: seq<Block>)
    requires |lh| == |data| && Distinct(lh)
    requires forall i :: 0 <= i < |lh| ==> 0 <= lh[i] < |d|
    ensures forall i :: 0 <= i < |lh| ==> Overlay(d, lh, data)[lh[i]] == data[i]
    ensures forall b :: 0 <= b < |d| && b !in lh ==> Overlay(d, lh, data)[b] == d[b]
  {
    var ws := InstallWrites(lh, data);
    forall i | 0 <= i < |lh| ensures Overlay(d, lh, data)[lh[i]] == data[i] {
      ApplyLast(d, ws, i);
    }
    forall b | 0 <= b < |d| && b !in lh ensures Overlay(d, lh, data)[b] == d[b] {
      ApplyFrame(d, ws, b);
    }
  }

  /** Two images agree on every block outside the log. */
  ghost predicate SameHome(d: Image, e: Image, start: nat) {
    |d| == |e| && forall b :: 0 <= b < |d| && !InLog(start, b) ==> d[b] == e[b]
  }

  lemma OverlaySameHome(d: Image, e: Image, start: nat, lh: seq<int>, data: seq<Block>)
    requires SameHome(d, e, start) && GoodDests(|d|, start, lh) && |lh| == |data|
    ensures SameHome(Overlay(d, lh, data), Overlay(e, lh, data), start)
  {
    OverlayAt(d, lh, data);
    OverlayAt(e, lh, data);
    forall b | 0 <= b < |d| && !InLog(start, b)
      ensures Overlay(d, lh, data)[b] == Overlay(e, lh, data)[b]
    {
      if b in lh {
        var i :| 0 <= i < |lh| && lh[i] == b;
      }
    }
  }

  /** What the disk durably holds: the home blocks with the log's contents on top. */
  ghost function Durable(d: Image, start: nat): (r: Image)
    requires WellFormed(d, start)
    ensures |r| == |d|
  {
    Overlay(d, Dests(d[start]), LogData(d, start))
  }

  lemma CleanDurable(d: Image, start: nat)
    requires Clean(d, start)
    ensures WellFormed(d, start) && Durable(d, start) == d
  {
    assert InstallWrites(Dests(d[start]), LogData(d, start)) == [];
  }

  // ----- a crash inside commit() -----

  /** Writing log data blocks touches neither the header nor a home block. */
  lemma LogWritesHidden(d: Image, start: nat, data: seq<Block>, k: nat)
    requires start + LOGBLOCKS < |d| && |data| <= LOGBLOCKS && k <= |data|
    ensures InRange(|d|, LogWrites(start, data)[..k])
    ensures SameHome(Apply(d, LogWrites(start, data)[..k]), d, start)
    ensures Apply(d, LogWrites(start, data)[..k])[start] == d[start]
  {
    var ws := LogWrites(start, data)[..k];
    forall b | 0 <= b < |d| && (!InLog(start, b) || b == start) ensures Apply(d, ws)[b] == d[b] {
      ApplyFrame(d, ws, b);
    }
  }

  lemma LogWritesStored(d: Image, start: nat, data: seq<Block>)
    requires start + LOGBLOCKS < |d| && |data| <= LOGBLOCKS
    ensures InRange(|d|, LogWrites(start, data))
    ensures forall i :: 0 <= i < |data| ==> Apply(d, LogWrites(start, data))[start + 1 + i] == data[i]
  {
    var ws := LogWrites(start, data);
    forall i | 0 <= i < |data| ensures Apply(d, ws)[start + 1 + i] == data[i] {
      assert ws[i] == Write(start + 1 + i, data[i]);
      ApplyLast(d, ws, i);
    }
  }

  lemma HeaderPublishes(f: Image, d: Image, start: nat, lh: seq<int>, data: seq<Block>, h: Block)
    requires start + LOGBLOCKS < |d| && SameHome(f, d, start) && GoodDests(|d|, start, lh)
    requires |lh| == |data|
    requires GoodHeader(h) && Dests(h) == lh
    requires forall i :: 0 <= i < |data| ==> f[start + 1 + i] == data[i]
    ensures var e := f[start := h];
            WellFormed(e, start) && LogData(e, start) == data && SameHome(e, d, start)
  {
    var e := f[start := h];
    assert LogData(e, start) == data;
  }

  /** Once the header is written, the log says exactly: `lh[i]` holds `data[i]`. */
  lemma Published(d: Image, start: nat, lh: seq<int>, data: seq<Block>)
    requires start + LOGBLOCKS < |d| && d[start].Full() && GoodDests(|d|, start, lh) && |lh| == |data|
    ensures InRange(|d|, PublishWrites(d[start], start, lh, data))
    ensures var e := Apply(d, PublishWrites(d[start], start, lh, data));
            && e[start] == HeaderBlock(d[start], lh)
            && WellFormed(e, start) && LogData(e, start) == data && SameHome(e, d, start)
  {
    var lw := LogWrites(start, data);
    LogWritesHidden(d, start, data, |data|);
    assert lw[..|data|] == lw;
    LogWritesStored(d, start, data);
    var f, h := Apply(d, lw), HeaderBlock(d[start], lh);
    ApplyOne(d, lw, Write(start, h));
    HeaderPublishes(f, d, start, lh, data, h);
  }

  /** Crash before the header write: the durable contents are still the old ones. */
  lemma CrashBeforeHeader(d: Image, start: nat, lh: seq<int>, data: seq<Block>, k: nat)
    requires Clean(d, start) && GoodDests(|d|, start, lh) && |lh| == |data| && k <= |lh|
    ensures k <= |CommitWrites(d[start], start, lh, data)|
    ensures InRange(|d|, CommitWrites(d[start], start, lh, data)[..k])
    ensures var e := Apply(d, CommitWrites(d[start], start, lh, data)[..k]);
            WellFormed(e, start) && SameHome(Durable(e, start), d, start)
  {
    var ws := CommitWrites(d[start], start, lh, data);
    LogWritesHidden(d, start, data, k);
    assert ws[..k] == LogWrites(start, data)[..k];
    CleanDurable(Apply(d, ws[..k]), start);
  }

  // ----- emptying the log: the tail of commit() and all of recovery -----

  /** Installing entries of the log leaves the log alone. */
  lemma InstallKeepsLog(d: Image, start: nat, k: nat)
    requires WellFormed(d, start) && k <= |Dests(d[start])|
    ensures var ws := InstallWrites(Dests(d[start]), LogData(d, start))[..k];
            && InRange(|d|, ws)
            && (forall b :: 0 <= b < |d| && InLog(start, b) ==> Apply(d, ws)[b] == d[b])
            && (forall b :: 0 <= b < |d| && b !in Dests(d[start]) ==> Apply(d, ws)[b] == d[b])
  {
    var ws := InstallWrites(Dests(d[start]), LogData(d, start))[..k];
    forall b | 0 <= b < |d| && (InLog(start, b) || b !in Dests(d[start])) ensures Apply(d, ws)[b] == d[b] {
      ApplyFrame(d, ws, b);
    }
  }

  /** Overlaying data that is partly in place already gives the same image. */
  lemma OverlayAgain(d: Image, e: Image, lh: seq<int>, data: seq<Block>)
    requires |lh| == |data| && Distinct(lh) && |d| == |e|
    requires forall i :: 0 <= i < |lh| ==> 0 <= lh[i] < |d|
    requires forall b :: 0 <= b < |d| && b !in lh ==> e[b] == d[b]
    ensures Overlay(e, lh, data) == Overlay(d, lh, data)
  {
    OverlayAt(d, lh, data);
    OverlayAt(e, lh, data);
    forall b | 0 <= b < |d| ensures Overlay(e, lh, data)[b] == Overlay(d, lh, data)[b] {
      if b in lh {
        var i :| 0 <= i < |lh| && lh[i] == b;
      }
    }
  }

  /** An image with the same log, differing only in blocks the log names, is
      durably the same. */
  lemma SameLogDurable(d: Image, e: Image, start: nat)
    requires WellFormed(d, start) && |e| == |d|
    requires forall b :: 0 <= b < |d| && InLog(start, b) ==> e[b] == d[b]
    requires forall b :: 0 <= b < |d| && b !in Dests(d[start]) ==> e[b] == d[b]
    ensures WellFormed(e, start) && e[start] == d[start] && Durable(e, start) == Durable(d, start)
  {
    assert InLog(start, start);
    assert LogData(e, start) == LogData(d, start);
    OverlayAgain(d, e, Dests(d[start]), LogData(d, start));
  }

  /** So the durable contents do not change either. */
  lemma InstallKeepsDurable(d: Image, start: nat, k: nat)
    requires WellFormed(d, start) && k <= |Dests(d[start])|
    ensures var ws := InstallWrites(Dests(d[start]), LogData(d, start))[..k];
            && InRange(|d|, ws)
            && WellFormed(Apply(d, ws), start) && Apply(d, ws)[start] == d[start]
            && Durable(Apply(d, ws), start) == Durable(d, start)
  {
    InstallKeepsLog(d, start, k);
    SameLogDurable(d, Apply(d, InstallWrites(Dests(d[start]), LogData(d, start))[..k]), start);
  }

  /** Crash while the log is being emptied: no prefix of the writes changes the
      durable contents; the whole sequence leaves a clean log and puts the durable
      contents in the home blocks. */
  lemma RecoveryCrash(d: Image, start: nat, k: nat)
    requires WellFormed(d, start) && k <= |RecoveryWrites(d, start)|
    ensures var ws := RecoveryWrites(d, start);
            && InRange(|d|, ws[..k])
            && var e := Apply(d, ws[..k]);
            && WellFormed(e, start)
            && SameHome(Durable(e, start), Durable(d, start), start)
            && (k == |ws| ==> Clean(e, start) && SameHome(e, Durable(d, start), start))
  {
    var iw := InstallWrites(Dests(d[start]), LogData(d, start));
    var ws := RecoveryWrites(d, start);
    if k <= |iw| {
      InstallKeepsDurable(d, start, k);
      assert ws[..k] == iw[..k];
    } else {
      InstallKeepsLog(d, start, |iw|);
      assert iw[..|iw|] == iw && ws[..k] == ws && ws[..|ws| - 1] == iw;
      CleanDurable(Apply(d, ws), start);
    }
  }

  lemma PrefixOfConcat<T>(a: seq<T>, b: seq<T>, k: nat)
    requires |a| <= k <= |a| + |b|
    ensures (a + b)[..k] == a + b[..k - |a|]
  {
  }

  lemma CrashWhileEmptying(d: Image, p: Image, start: nat, lh: seq<int>, data: seq<Block>, pw: seq<Write>,
                           j: nat)
    requires GoodDests(|d|, start, lh) && |lh| == |data|
    requires InRange(|d|, pw) && p == Apply(d, pw)
    requires WellFormed(p, start) && Dests(p[start]) == lh && LogData(p, start) == data
    requires SameHome(p, d, start)
    requires j <= |RecoveryWrites(p, start)|
    ensures var ws := pw + RecoveryWrites(p, start)[..j];
            && InRange(|d|, ws)
            && var e := Apply(d, ws);
            && WellFormed(e, start)
            && SameHome(Durable(e, start), Overlay(d, lh, data), start)
            && (j == |RecoveryWrites(p, start)| ==> Clean(e, start) && SameHome(e, Overlay(d, lh, data), start))
  {
    RecoveryCrash(p, start, j);
    ApplyConcat(d, pw, RecoveryWrites(p, start)[..j]);
    OverlaySameHome(p, d, start, lh, data);
  }

  /** Crash at or after the header write of a commit: the new contents are durable. */
  lemma CrashAfterHeader(d: Image, start: nat, lh: seq<int>, data: seq<Block>, k: nat)
    requires Clean(d, start) && GoodDests(|d|, start, lh) && |lh| == |data| && lh != []
    requires |lh| < k <= |CommitWrites(d[start], start, lh, data)|
    ensures var ws := CommitWrites(d[start], start, lh, data);
            && InRange(|d|, ws[..k])
            && var e := Apply(d, ws[..k]);
            && WellFormed(e, start)
            && SameHome(Durable(e, start), Overlay(d, lh, data), start)
            && (k == |ws| ==> Clean(e, start) && SameHome(e, Overlay(d, lh, data), start))
  {
    var pw := PublishWrites(d[start], start, lh, data);
    Published(d, start, lh, data);
    var p := Apply(d, pw);
    PrefixOfConcat(pw, RecoveryWrites(p, start), k);
    CrashWhileEmptying(d, p, start, lh, data, pw, k - |pw|);
  }

  /** Crash inside commit(): whatever prefix of its writes reached the disk, the
      durable contents are the old ones if the header write did not, and the new
      ones if it did. */
  lemma CommitCrash(d: Image, start: nat, lh: seq<int>, data: seq<Block>, k: nat)
    requires Clean(d, start) && GoodDests(|d|, start, lh) && |lh| == |data|
    requires k <= |CommitWrites(d[start], start, lh, data)|
    ensures var ws := CommitWrites(d[start], start, lh, data);
            && InRange(|d|, ws[..k])
            && var e := Apply(d, ws[..k]);
            && WellFormed(e, start)
            && SameHome(Durable(e, start), if k <= |lh| then d else Overlay(d, lh, data), start)
            && (k == |ws| ==> Clean(e, start) && SameHome(e, Overlay(d, lh, data), start))
  {
    if k <= |lh| {
      CrashBeforeHeader(d, start, lh, data, k);
      if lh == [] {
        assert InstallWrites(lh, data) == [];
      }
    } else {
      CrashAfterHeader(d, start, lh, data, k);
    }
  }

  // ----- whole runs -----

  /** One group commit: the home blocks it updates and their new contents. */
  datatype Txn = Txn(lh: seq<int>, data: seq<Block>)

  /** One power cycle: transactions committed in full, then a crash after `cut`
      writes of the commit of `torn`, then recoveries that crash after the given
      numbers of writes, then a recovery that completes. */
  datatype Cycle = Cycle(done: seq<Txn>, torn: Txn, cut: nat, retries: seq<nat>)

  ghost predicate GoodTxn(size: nat, start: nat, t: Txn) {
    GoodDests(size, start, t.lh) && |t.lh| == |t.data|
  }

  ghost predicate GoodTxns(size: nat, start: nat, ts: seq<Txn>) {
    forall i :: 0 <= i < |ts| ==> GoodTxn(size, start, ts[i])
  }

  ghost predicate GoodCycle(size: nat, start: nat, c: Cycle) {
    GoodTxn(size, start, c.torn) && GoodTxns(size, start, c.done)
  }

  ghost predicate GoodCycles(size: nat, start: nat, cs: seq<Cycle>) {
    forall i :: 0 <= i < |cs| ==> GoodCycle(size, start, cs[i])
  }

  ghost function Min(a: nat, b: nat): nat {
    if a <= b then a else b
  }

  /** commit() of `t`, interrupted after `cut` writes if it makes that many. */
  ghost function CommitCut(d: Image, start: nat, t: Txn, cut: nat): (r: Image)
    requires Clean(d, start) && GoodTxn(|d|, start, t)
    ensures |r| == |d| && WellFormed(r, start)
    ensures SameHome(Durable(r, start), if cut <= |t.lh| then d else Overlay(d, t.lh, t.data), start)
  {
    var ws := CommitWrites(d[start], start, t.lh, t.data);
    CommitCrash(d, start, t.lh, t.data, Min(cut, |ws|));
    assert cut > |t.lh| && |ws| <= |t.lh| ==> InstallWrites(t.lh, t.data) == [];
    Apply(d, ws[..Min(cut, |ws|)])
  }

  ghost function CommitAll(d: Image, start: nat, t: Txn): (r: Image)
    requires Clean(d, start) && GoodTxn(|d|, start, t)
    ensures Clean(r, start) && SameHome(r, Overlay(d, t.lh, t.data), start)
  {
    var ws := CommitWrites(d[start], start, t.lh, t.data);
    CommitCrash(d, start, t.lh, t.data, |ws|);
    assert ws[..|ws|] == ws;
    assert |ws| <= |t.lh| ==> InstallWrites(t.lh, t.data) == [];
    Apply(d, ws)
  }

  /** recover_from_log(), interrupted after `cut` writes if it makes that many. */
  ghost function RecoveryCut(d: Image, start: nat, cut: nat): (r: Image)
    requires WellFormed(d, start)
    ensures |r| == |d| && WellFormed(r, start) && SameHome(Durable(r, start), Durable(d, start), start)
  {
    var ws := RecoveryWrites(d, start);
    RecoveryCrash(d, start, Min(cut, |ws|));
    Apply(d, ws[..Min(cut, |ws|)])
  }

  ghost function Recover(d: Image, start: nat): (r: Image)
    requires WellFormed(d, start)
    ensures Clean(r, start) && SameHome(r, Durable(d, start), start)
  {
    var ws := RecoveryWrites(d, start);
    RecoveryCrash(d, start, |ws|);
    assert ws[..|ws|] == ws;
    Apply(d, ws)
  }

  ghost function RunTxns(d: Image, start: nat, ts: seq<Txn>): (r: Image)
    requires Clean(d, start) && GoodTxns(|d|, start, ts)
    ensures |r| == |d| && Clean(r, start)
  {
    if ts == [] then d
    else CommitAll(RunTxns(d, start, ts[..|ts| - 1]), start, ts[|ts| - 1])
  }

  ghost function RunRetries(d: Image, start: nat, cuts: seq<nat>): (r: Image)
    requires WellFormed(d, start)
    ensures WellFormed(r, start) && SameHome(Durable(r, start), Durable(d, start), start)
  {
    if cuts == [] then d
    else RecoveryCut(RunRetries(d, start, cuts[..|cuts| - 1]), start, cuts[|cuts| - 1])
  }

  /** What the disk goes through in one power cycle. */
  ghost function RunCycle(d: Image, start: nat, c: Cycle): (r: Image)
    requires Clean(d, start) && GoodCycle(|d|, start, c)
    ensures |r| == |d| && Clean(r, start)
  {
    var crashed := CommitCut(RunTxns(d, start, c.done), start, c.torn, c.cut);
    Recover(RunRetries(crashed, start, c.retries), start)
  }

  ghost function RunCycles(d: Image, start: nat, cs: seq<Cycle>): (r: Image)
    requires Clean(d, start) && GoodCycles(|d|, start, cs)
    ensures |r| == |d| && Clean(r, start)
  {
    if cs == [] then d else RunCycle(RunCycles(d, start, cs[..|cs| - 1]), start, cs[|cs| - 1])
  }

  /** The transactions of a cycle that count: the completed ones, and the torn one
      exactly when its header write reached the disk. */
  ghost function Applied(c: Cycle): seq<Txn> {
    if c.cut > |c.torn.lh| then c.done + [c.torn] else c.done
  }

  ghost function AllApplied(cs: seq<Cycle>): seq<Txn> {
    if cs == [] then [] else AllApplied(cs[..|cs| - 1]) + Applied(cs[|cs| - 1])
  }

  /** The atomic meaning of transactions: each one's updates, in order. */
  ghost function Atomic(d: Image, start: nat, ts: seq<Txn>): (r: Image)
    requires GoodTxns(|d|, start, ts)
    ensures |r| == |d|
  {
    if ts == [] then d
    else Overlay(Atomic(d, start, ts[..|ts| - 1]), ts[|ts| - 1].lh, ts[|ts| - 1].data)
  }

  lemma {:induction false} AtomicConcat(d: Image, start: nat, a: seq<Txn>, b: seq<Txn>)
    requires GoodTxns(|d|, start, a) && GoodTxns(|d|, start, b)
    ensures GoodTxns(|d|, start, a + b)
    ensures Atomic(d, start, a + b) == Atomic(Atomic(d, start, a), start, b)
  {
    if b == [] {
      assert a + b == a;
    } else {
      assert (a + b)[..|a + b| - 1] == a + b[..|b| - 1];
      AtomicConcat(d, start, a, b[..|b| - 1]);
    }
  }

  lemma {:induction false} AtomicSameHome(d: Image, e: Image, start: nat, ts: seq<Txn>)
    requires SameHome(d, e, start) && GoodTxns(|d|, start, ts)
    ensures SameHome(Atomic(d, start, ts), Atomic(e, start, ts), start)
  {
    if ts != [] {
      var front, t := ts[..|ts| - 1], ts[|ts| - 1];
      AtomicSameHome(d, e, start, front);
      OverlaySameHome(Atomic(d, start, front), Atomic(e, start, front), start, t.lh, t.data);
    }
  }

  lemma {:induction false} RunTxnsAtomic(d: Image, start: nat, ts: seq<Txn>)
    requires Clean(d, start) && GoodTxns(|d|, start, ts)
    ensures SameHome(RunTxns(d, start, ts), Atomic(d, start, ts), start)
  {
    if ts != [] {
      var front, t := ts[..|ts| - 1], ts[|ts| - 1];
      RunTxnsAtomic(d, start, front);
      OverlaySameHome(RunTxns(d, start, front), Atomic(d, start, front), start, t.lh, t.data);
    }
  }

  lemma CycleAtomic(d: Image, start: nat, c: Cycle)
    requires Clean(d, start) && GoodCycle(|d|, start, c)
    ensures GoodTxns(|d|, start, Applied(c))
    ensures SameHome(RunCycle(d, start, c), Atomic(d, start, Applied(c)), start)
  {
    RunTxnsAtomic(d, start, c.done);
    var e, t := RunTxns(d, start, c.done), c.torn;
    var f := RunRetries(CommitCut(e, start, t, c.cut), start, c.retries);
    assert SameHome(Recover(f, start), if c.cut <= |t.lh| then e else Overlay(e, t.lh, t.data), start);
    OverlaySameHome(e, Atomic(d, start, c.done), start, t.lh, t.data);
    if c.cut > |t.lh| {
      assert Applied(c)[..|Applied(c)| - 1] == c.done;
    }
  }

  /** Crash atomicity over whole runs: through any number of power cycles, each
      with any crash point inside commit() and any number of crashes inside
      recovery, the home blocks hold the result of exactly the transactions whose
      header write reached the disk, each applied whole and in order. */
  lemma {:induction false} CrashAtomicity(d: Image, start: nat, cs: seq<Cycle>)
    requires Clean(d, start) && GoodCycles(|d|, start, cs)
    ensures GoodTxns(|d|, start, AllApplied(cs))
    ensures SameHome(RunCycles(d, start, cs), Atomic(d, start, AllApplied(cs)), start)
  {
    if cs != [] {
      var front, c := cs[..|cs| - 1], cs[|cs| - 1];
      CrashAtomicity(d, start, front);
      var e := RunCycles(d, start, front);
      CycleAtomic(e, start, c);
      AtomicSameHome(e, Atomic(d, start, AllApplied(front)), start, Applied(c));
      AtomicConcat(d, start, AllApplied(front), Applied(c));
    }
  }
}
