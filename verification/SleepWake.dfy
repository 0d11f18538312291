/** Blocking on a condition: semaphores and sleep locks over sleep() and wakeup(). */
module SleepWake {
  // The semaphores of kernel/sysproc.c and the sleep locks of kernel/sleeplock.c have the
  // same shape.  Taking waits, under a spinlock, until `count` is positive: for a semaphore
  // its count, for a sleep lock 1 while nobody holds it.  Giving changes the count and wakes
  // every process asleep on the channel.

  datatype Kind = Semaphore | SleepLock

  datatype PState = SLEEPING | RUNNABLE | RUNNING

  const NOBODY := -1

  /** Where a process is: outside; testing the count under the spinlock; in sleep(), about
      to take p->lock, to release the spinlock, to mark itself, in sched(), wanting the
      spinlock again; about to release after taking; about to change the count; in
      wakeup() at slot j. */
  datatype Pc =
    | Idle | Test | SleepTake | SleepRelease | SleepMark | Asleep | Reacquire
    | Took | Giving | Waking(j: int)

  /** `onChan`: p->chan is this channel.  `lock` is the holder of p->lock. */
  datatype Proc = Proc(st: PState, pc: Pc, onChan: bool, lock: int)

  /** `spin` holds the spinlock; `owner` is the sleep lock's record of who has it. */
  datatype State = State(kind: Kind, procs: seq<Proc>, spin: int, count: int, owner: int)

  datatype Action =
    | Take(p: int) | Give(p: int) | Step(p: int)
    | Switch(p: int) | Dispatch(p: int) | Preempt(p: int) | Kill(p: int)

  predicate Slot(s: State, p: int) {
    0 <= p < |s.procs|
  }

  function Put(s: State, p: int, r: Proc, spin: int): State
    requires Slot(s, p)
  {
    State(s.kind, s.procs[p := r], spin, s.count, s.owner)
  }

  function At(s: State, p: int, pc: Pc, spin: int): State
    requires Slot(s, p)
  {
    Put(s, p, s.procs[p].(pc := pc), spin)
  }

  function Taken(s: State, p: int): State
    requires Slot(s, p)
  {
    if s.kind == Semaphore then s.(count := s.count - 1) else s.(count := 0, owner := p)
  }

  function Given(s: State, p: int): State
    requires Slot(s, p)
  {
    if s.kind == Semaphore then s.(count := s.count + 1) else s.(count := 1, owner := NOBODY)
  }

  /** holdingsleep() by p. */
  predicate Holding(s: State, p: int) {
    s.count == 0 && s.owner == p
  }

  predicate CanWake(s: State, p: int, j: int) {
    Slot(s, j) && (j != p ==> s.procs[j].lock == NOBODY)
  }

  function Wake(s: State, p: int, j: int): State
    requires Slot(s, j)
  {
    if j != p && s.procs[j].st == SLEEPING && s.procs[j].onChan then Put(s, j, s.procs[j].(st := RUNNABLE), s.spin)
        else s
  }

  predicate StepEnabled(s: State, p: int)
    requires Slot(s, p)
  {
    match s.procs[p].pc
    case Idle => false
    case SleepTake => s.procs[p].lock == NOBODY
    case Asleep => s.procs[p].lock == NOBODY
    case Reacquire => s.spin == NOBODY
    case Waking(j) => 0 <= j && (j < |s.procs| ==> CanWake(s, p, j))
    case _ => true
  }

  function StepNext(s: State, p: int): State
    requires Slot(s, p) && StepEnabled(s, p)
  {
    match s.procs[p].pc
    case Test => if s.count <= 0 then At(s, p, SleepTake, s.spin) else At(Taken(s, p), p, Took, s.spin)
    case SleepTake => Put(s, p, s.procs[p].(lock := p, pc := SleepRelease), s.spin)
    case SleepRelease => At(s, p, SleepMark, NOBODY)
    case SleepMark => Put(s, p, s.procs[p].(onChan := true, st := SLEEPING, pc := Asleep), s.spin)
    case Asleep => Put(s, p, s.procs[p].(onChan := false, pc := Reacquire), s.spin)
    case Reacquire => At(s, p, Test, p)
    case Giving => At(Given(s, p), p, Waking(0), s.spin)
    case Waking(j) => if j >= |s.procs| then At(s, p, Idle, NOBODY) else At(Wake(s, p, j), p, Waking(j + 1), s.spin)
    case _ => At(s, p, Idle, NOBODY)
  }

  /** A sleep lock is given up by a process for which holdingsleep() is true; a semaphore by
      anyone. */
  predicate Enabled(s: State, a: Action) {
    && Slot(s, a.p)
    && match a
       case Take(p) => s.procs[p].st == RUNNING && s.procs[p].pc == Idle && s.spin == NOBODY
       case Give(p) => s.procs[p].st == RUNNING && s.procs[p].pc == Idle && s.spin == NOBODY
           && (s.kind == SleepLock ==> Holding(s, p))
       case Step(p) => s.procs[p].st == RUNNING && StepEnabled(s, p)
       case Switch(p) => s.procs[p].pc.Asleep? && s.procs[p].lock == p
       case Dispatch(p) => s.procs[p].st == RUNNABLE && s.procs[p].lock == NOBODY
       case Preempt(p) => s.procs[p].st == RUNNING && (s.procs[p].pc.Idle? || s.procs[p].pc.Reacquire?)
       case Kill(p) => s.procs[p].lock == NOBODY
  }

  function Next(s: State, a: Action): State
    requires Enabled(s, a)
  {
    match a
    case Take(p) => At(s, p, Test, p)
    case Give(p) => At(s, p, Giving, p)
    case Step(p) => StepNext(s, p)
    case Switch(p) => Put(s, p, s.procs[p].(lock := NOBODY), s.spin)
    case Dispatch(p) => Put(s, p, s.procs[p].(st := RUNNING), s.spin)
    case Preempt(p) => Put(s, p, s.procs[p].(st := RUNNABLE), s.spin)
    case Kill(p) => Put(s, p, s.procs[p].(st := if s.procs[p].st == SLEEPING then RUNNABLE else s.procs[p].st), s.spin)
  }

  // ----- the invariant -----

  predicate Spinning(pc: Pc) {
    pc.Test? || pc.SleepTake? || pc.SleepRelease? || pc.Took? || pc.Giving? || pc.Waking?
  }

  ghost predicate PcOk(s: State, p: int)
    requires Slot(s, p)
  {
    var r := s.procs[p];
    && (Spinning(r.pc) <==> s.spin == p) && (Spinning(r.pc) ==> r.st == RUNNING)
    && (r.st == SLEEPING ==> r.pc.Asleep?) && (r.pc.Asleep? ==> r.onChan)
    && (r.pc.SleepRelease? || r.pc.SleepMark? ==> r.lock == p) && (r.pc.SleepMark? ==> r.st == RUNNING)
    && (r.lock == NOBODY || (r.lock == p && (r.pc.SleepRelease? || r.pc.SleepMark? || r.pc.Asleep?)))
    && (r.pc.SleepTake? || r.pc.SleepRelease? ==> s.count <= 0)
    && (r.pc.Giving? && s.kind == SleepLock ==> Holding(s, p))
    && (r.pc.Waking? ==> 0 <= r.pc.j)
  }

  /** Asleep, or holding p->lock with nothing left that could keep it from sleeping. */
  predicate Committed(s: State, p: int)
    requires Slot(s, p)
  {
    s.procs[p].pc.SleepMark? || (s.procs[p].pc.Asleep? && s.procs[p].st == SLEEPING)
  }

  predicate WakeComing(s: State, p: int) {
    Slot(s, s.spin) && s.spin != p && s.procs[s.spin].pc.Waking? && s.procs[s.spin].pc.j <= p
  }

  ghost predicate NotMissed(s: State, p: int)
    requires Slot(s, p)
  {
    Committed(s, p) && s.count > 0 ==> WakeComing(s, p)
  }

  /** A sleep lock's count tells whether it has an owner. */
  ghost predicate CountOk(s: State) {
    && 0 <= s.count && (s.kind == SleepLock ==> s.count == if s.owner == NOBODY then 1 else 0)
    && (s.owner == NOBODY || Slot(s, s.owner))
  }

  ghost predicate Inv(s: State) {
    && CountOk(s) && (s.spin == NOBODY || Slot(s, s.spin))
    && (forall p {:trigger PcOk(s, p)} :: Slot(s, p) ==> PcOk(s, p))
    && (forall p {:trigger NotMissed(s, p)} :: Slot(s, p) ==> NotMissed(s, p))
  }

  lemma OwnPcTurn(s: State, p: int)
    requires Inv(s) && Enabled(s, Step(p))
    ensures |StepNext(s, p).procs| == |s.procs| && PcOk(StepNext(s, p), p)
  {
    assert PcOk(s, p);
  }

  lemma OwnNotMissedTurn(s: State, p: int)
    requires Inv(s) && Enabled(s, Step(p))
    ensures |StepNext(s, p).procs| == |s.procs| && NotMissed(StepNext(s, p), p)
  {
    assert PcOk(s, p) && NotMissed(s, p);
    if Slot(s, s.spin) {
      assert PcOk(s, s.spin);
    }
  }

  lemma OwnStepKeeps(s: State, a: Action)
    requires Inv(s) && Enabled(s, a)
    ensures |Next(s, a).procs| == |s.procs| && PcOk(Next(s, a), a.p) && NotMissed(Next(s, a), a.p)
  {
    if a.Step? {
      OwnPcTurn(s, a.p);
      OwnNotMissedTurn(s, a.p);
    } else {
      assert PcOk(s, a.p) && NotMissed(s, a.p);
      if Slot(s, s.spin) {
        assert PcOk(s, s.spin);
      }
    }
  }

  /** p changes the count. */
  lemma OthersCounted(s: State, p: int, q: int)
    requires Inv(s) && Enabled(s, Step(p)) && Slot(s, q) && q != p
    requires s.procs[p].pc.Test? || s.procs[p].pc.Giving?
    ensures |StepNext(s, p).procs| == |s.procs| && PcOk(StepNext(s, p), q)
  {
    assert PcOk(s, p) && PcOk(s, q);
  }

  lemma OthersTurn(s: State, p: int, q: int)
    requires Inv(s) && Enabled(s, Step(p)) && Slot(s, q) && q != p
    ensures |StepNext(s, p).procs| == |s.procs| && PcOk(StepNext(s, p), q)
  {
    if s.procs[p].pc.Test? || s.procs[p].pc.Giving? {
      OthersCounted(s, p, q);
    } else {
      assert PcOk(s, p) && PcOk(s, q);
    }
  }

  lemma OthersPcKept(s: State, a: Action, q: int)
    requires Inv(s) && Enabled(s, a) && Slot(s, q) && q != a.p
    ensures |Next(s, a).procs| == |s.procs| && PcOk(Next(s, a), q)
  {
    if a.Step? {
      OthersTurn(s, a.p, q);
    } else {
      assert PcOk(s, a.p) && PcOk(s, q);
    }
  }

  /** p changes the count or wakes; no sleeper q is passed over. */
  lemma OthersNotMissed(s: State, p: int, q: int)
    requires Inv(s) && Enabled(s, Step(p)) && Slot(s, q) && q != p
    ensures |StepNext(s, p).procs| == |s.procs| && NotMissed(StepNext(s, p), q)
  {
    assert PcOk(s, p) && PcOk(s, q) && NotMissed(s, q);
  }

  lemma OthersStillMissed(s: State, a: Action, q: int)
    requires Inv(s) && Enabled(s, a) && Slot(s, q) && q != a.p && !a.Step?
    ensures |Next(s, a).procs| == |s.procs| && NotMissed(Next(s, a), q)
  {
    assert PcOk(s, a.p) && PcOk(s, q) && NotMissed(s, q);
  }

  lemma CountKept(s: State, a: Action)
    requires Inv(s) && Enabled(s, a)
    ensures CountOk(Next(s, a)) && (Next(s, a).spin == NOBODY || Slot(Next(s, a), Next(s, a).spin))
    ensures Next(s, a).kind == s.kind
  {
    assert PcOk(s, a.p);
  }

  /** Every step, spurious wakes included, keeps the invariant. */
  lemma InvStep(s: State, a: Action)
    requires Inv(s) && Enabled(s, a)
    ensures Inv(Next(s, a)) && Next(s, a).kind == s.kind && |Next(s, a).procs| == |s.procs|
  {
    var p, s' := a.p, Next(s, a);
    OwnStepKeeps(s, a);
    CountKept(s, a);
    forall q | Slot(s', q) ensures PcOk(s', q) && NotMissed(s', q) {
      if q != p {
        OthersPcKept(s, a, q);
        if a.Step? {
          OthersNotMissed(s, p, q);
        } else {
          OthersStillMissed(s, a, q);
        }
      }
    }
  }

  // ----- whole runs -----

  /** seminit() and initsleeplock(): the count is 1 and nobody is about. */
  function Start(kind: Kind, n: nat): State {
    State(kind, seq(n, k => Proc(RUNNABLE, Idle, false, NOBODY)), NOBODY, 1, NOBODY)
  }

  ghost predicate IsRun(s: State, run: seq<Action>)
    decreases |run|
  {
    run == [] || (Enabled(s, run[0]) && IsRun(Next(s, run[0]), run[1..]))
  }

  ghost function After(s: State, run: seq<Action>): State
    requires IsRun(s, run)
    decreases |run|
  {
    if run == [] then s else After(Next(s, run[0]), run[1..])
  }

  lemma {:induction false} InvRun(s: State, run: seq<Action>)
    requires Inv(s) && IsRun(s, run)
    ensures Inv(After(s, run)) && After(s, run).kind == s.kind && |After(s, run).procs| == |s.procs|
    decreases |run|
  {
    if run != [] {
      InvStep(s, run[0]);
      InvRun(Next(s, run[0]), run[1..]);
    }
  }

  lemma StartInv(kind: Kind, n: nat)
    ensures Inv(Start(kind, n))
  {
    forall p | Slot(Start(kind, n), p) ensures PcOk(Start(kind, n), p) && NotMissed(Start(kind, n), p) {
    }
  }

  /** In every state of every run nobody sleeps, with the spinlock free, while the count
      is positive. */
  lemma NoLostWakeup(kind: Kind, n: nat, run: seq<Action>, p: int)
    requires IsRun(Start(kind, n), run)
    ensures var s := After(Start(kind, n), run);
            s.spin == NOBODY && Slot(s, p) && Committed(s, p) ==> s.count <= 0
  {
    StartInv(kind, n);
    InvRun(Start(kind, n), run);
    var s := After(Start(kind, n), run);
    if Slot(s, p) {
      assert NotMissed(s, p);
    }
  }

  // ----- what calls do, told from where the processes are -----

  /** A wait gets through: the process goes from testing to having taken. */
  ghost predicate Acquires(s: State, a: Action)
    requires Enabled(s, a)
  {
    s.procs[a.p].pc.Test? && |Next(s, a).procs| == |s.procs| && Next(s, a).procs[a.p].pc.Took?
  }

  /** A post changes the count: the process leaves Giving. */
  ghost predicate Releases(s: State, a: Action)
    requires Enabled(s, a)
  {
    s.procs[a.p].pc.Giving? && |Next(s, a).procs| == |s.procs| && !Next(s, a).procs[a.p].pc.Giving?
  }

  /** How often process p does so in a run; p < 0 stands for all processes. */
  ghost function Waits(s: State, run: seq<Action>, p: int): nat
    requires IsRun(s, run)
    decreases |run|
  {
    if run == [] then 0
    else
      (if Acquires(s, run[0]) && (p < 0 || run[0].p == p) then 1 else 0) + Waits(Next(s, run[0]), run[1..], p)
  }

  ghost function Posts(s: State, run: seq<Action>, p: int): nat
    requires IsRun(s, run)
    decreases |run|
  {
    if run == [] then 0
    else
      (if Releases(s, run[0]) && (p < 0 || run[0].p == p) then 1 else 0) + Posts(Next(s, run[0]), run[1..], p)
  }

  /** How often process p makes this call. */
  function Calls(run: seq<Action>, call: Action): nat
    decreases |run|
  {
    if run == [] then 0 else (if run[0] == call then 1 else 0) + Calls(run[1..], call)
  }

  lemma CountTurn(s: State, a: Action)
    requires Inv(s) && Enabled(s, a)
    ensures s.kind == Semaphore ==>
              Next(s, a).count == s.count + (if Releases(s, a) then 1 else 0) - if Acquires(s, a) then 1 else 0
  {
    assert PcOk(s, a.p);
  }

  lemma {:induction false} CountRun(s: State, run: seq<Action>)
    requires Inv(s) && IsRun(s, run) && s.kind == Semaphore
    ensures After(s, run).count == s.count + Posts(s, run, -1) - Waits(s, run, -1)
    decreases |run|
  {
    if run != [] {
      InvStep(s, run[0]);
      CountTurn(s, run[0]);
      CountRun(Next(s, run[0]), run[1..]);
    }
  }

  /** A semaphore's count is 1 plus the posts less the waits that got through, in every state
      of every run, and never negative. */
  lemma SemaphoreCounts(n: nat, run: seq<Action>)
    requires IsRun(Start(Semaphore, n), run)
    ensures var s := Start(Semaphore, n);
            After(s, run).count == 1 + Posts(s, run, -1) - Waits(s, run, -1) >= 0
  {
    StartInv(Semaphore, n);
    InvRun(Start(Semaphore, n), run);
    CountRun(Start(Semaphore, n), run);
  }

  // ----- a call that returned has done its work -----

  predicate InTake(pc: Pc) {
    pc.Test? || pc.SleepTake? || pc.SleepRelease? || pc.SleepMark? || pc.Asleep? || pc.Reacquire?
  }

  function Pending(s: State, p: int): nat
    requires Slot(s, p)
  {
    if InTake(s.procs[p].pc) then 1 else 0
  }

  function Unposted(s: State, p: int): nat
    requires Slot(s, p)
  {
    if s.procs[p].pc.Giving? then 1 else 0
  }

  lemma CallTurn(s: State, a: Action, p: int)
    requires Inv(s) && Enabled(s, a) && Slot(s, p)
    ensures Slot(Next(s, a), p)
    ensures Pending(Next(s, a), p) + (if Acquires(s, a) && a.p == p then 1 else 0)
            == Pending(s, p) + if a == Take(p) then 1 else 0
    ensures Unposted(Next(s, a), p) + (if Releases(s, a) && a.p == p then 1 else 0)
            == Unposted(s, p) + if a == Give(p) then 1 else 0
  {
    assert PcOk(s, a.p) && PcOk(s, p);
  }

  lemma {:induction false} CallRun(s: State, run: seq<Action>, p: int)
    requires Inv(s) && IsRun(s, run) && Slot(s, p)
    ensures Slot(After(s, run), p)
    ensures Pending(After(s, run), p) + Waits(s, run, p) == Pending(s, p) + Calls(run, Take(p))
    ensures Unposted(After(s, run), p) + Posts(s, run, p) == Unposted(s, p) + Calls(run, Give(p))
    decreases |run|
  {
    if run != [] {
      InvStep(s, run[0]);
      CallTurn(s, run[0], p);
      CallRun(Next(s, run[0]), run[1..], p);
    }
  }

  /** A process that is outside has got through in each wait that it called, and changed the
      count in each post: no call returns without. */
  lemma CallsDone(kind: Kind, n: nat, run: seq<Action>, p: int)
    requires IsRun(Start(kind, n), run) && 0 <= p < n
    ensures var s := Start(kind, n);
            |After(s, run).procs| == n
            && (After(s, run).procs[p].pc == Idle ==>
                  Waits(s, run, p) == Calls(run, Take(p)) && Posts(s, run, p) == Calls(run, Give(p)))
  {
    StartInv(kind, n);
    InvRun(Start(kind, n), run);
    CallRun(Start(kind, n), run, p);
  }

  // ----- sleep locks exclude -----

  lemma {:induction false} RunPrefix(s: State, run: seq<Action>, k: int)
    requires IsRun(s, run) && 0 <= k <= |run|
    ensures IsRun(s, run[..k])
    ensures k < |run| ==> Enabled(After(s, run[..k]), run[k]) && IsRun(s, run[..k + 1])
    ensures k < |run| ==> After(s, run[..k + 1]) == Next(After(s, run[..k]), run[k])
    decreases |run|
  {
    if k == 0 {
      assert run != [] ==> run[..1][1..] == [];
    } else {
      assert run[..k][1..] == run[1..][..k - 1] && (k < |run| ==> run[..k + 1][1..] == run[1..][..k]);
      RunPrefix(Next(s, run[0]), run[1..], k - 1);
    }
  }

  /** The state before step k. */
  ghost function Before(s: State, run: seq<Action>, k: int): (t: State)
    requires IsRun(s, run) && 0 <= k <= |run|
    ensures k < |run| ==> Enabled(t, run[k])
  {
    RunPrefix(s, run, k);
    After(s, run[..k])
  }

  lemma BeforeNext(s: State, run: seq<Action>, k: int)
    requires IsRun(s, run) && 0 <= k < |run| && Inv(s)
    ensures Before(s, run, k + 1) == Next(Before(s, run, k), run[k])
    ensures Inv(Before(s, run, k)) && Before(s, run, k).kind == s.kind
  {
    RunPrefix(s, run, k);
    InvRun(s, run[..k]);
  }

  ghost predicate AcquiresAt(s: State, run: seq<Action>, k: int)
    requires IsRun(s, run) && 0 <= k < |run|
  {
    Acquires(Before(s, run, k), run[k])
  }

  ghost predicate ReleasesAt(s: State, run: seq<Action>, k: int)
    requires IsRun(s, run) && 0 <= k < |run|
  {
    Releases(Before(s, run, k), run[k])
  }

  /** Process p got through at step j and has not released since, up to step k. */
  ghost predicate HasSince(s: State, run: seq<Action>, p: int, j: int, k: int)
    requires IsRun(s, run) && 0 <= j < k <= |run|
  {
    && run[j].p == p && AcquiresAt(s, run, j)
    && forall m {:trigger ReleasesAt(s, run, m)} :: j < m < k && run[m].p == p ==> !ReleasesAt(s, run, m)
  }

  ghost predicate Has(s: State, run: seq<Action>, p: int, k: int)
    requires IsRun(s, run) && 0 <= k <= |run|
  {
    exists j {:trigger HasSince(s, run, p, j, k)} :: 0 <= j < k && HasSince(s, run, p, j, k)
  }

  /** One step of a sleep lock: who gets through finds it free and has it, who releases had
      it, and otherwise nothing changes. */
  lemma LockTurn(s: State, a: Action)
    requires Inv(s) && Enabled(s, a) && s.kind == SleepLock
    ensures Acquires(s, a) ==> s.owner == NOBODY && Holding(Next(s, a), a.p)
    ensures Releases(s, a) ==> Holding(s, a.p) && Next(s, a).owner == NOBODY
    ensures !Acquires(s, a) && !Releases(s, a) ==> Next(s, a).owner == s.owner && Next(s, a).count == s.count
    ensures !(Acquires(s, a) && Releases(s, a))
  {
    assert PcOk(s, a.p);
  }

  lemma HasNow(s: State, run: seq<Action>, p: int, k: int)
    requires IsRun(s, run) && 0 <= k < |run| && run[k].p == p && AcquiresAt(s, run, k)
    ensures Has(s, run, p, k + 1)
  {
    assert HasSince(s, run, p, k, k + 1);
  }

  lemma HasKept(s: State, run: seq<Action>, p: int, k: int)
    requires IsRun(s, run) && 0 <= k < |run| && Has(s, run, p, k) && !(run[k].p == p && ReleasesAt(s, run, k))
    ensures Has(s, run, p, k + 1)
  {
    var j :| 0 <= j < k && HasSince(s, run, p, j, k);
    assert HasSince(s, run, p, j, k + 1);
  }

  lemma HadBefore(s: State, run: seq<Action>, p: int, k: int)
    requires IsRun(s, run) && 0 <= k < |run| && Has(s, run, p, k + 1) && !(run[k].p == p && AcquiresAt(s, run, k))
    ensures Has(s, run, p, k) && !(run[k].p == p && ReleasesAt(s, run, k))
  {
    var j :| 0 <= j < k + 1 && HasSince(s, run, p, j, k + 1);
    assert HasSince(s, run, p, j, k);
  }

  lemma {:induction false} HoldingIsHas(n: nat, run: seq<Action>, p: int, k: int)
    requires IsRun(Start(SleepLock, n), run) && 0 <= k <= |run| && 0 <= p
    ensures Holding(Before(Start(SleepLock, n), run, k), p) <==> Has(Start(SleepLock, n), run, p, k)
    decreases k
  {
    var s := Start(SleepLock, n);
    StartInv(SleepLock, n);
    if k == 0 {
      assert run[..0] == [];
    } else {
      HoldingIsHas(n, run, p, k - 1);
      BeforeNext(s, run, k - 1);
      LockTurn(Before(s, run, k - 1), run[k - 1]);
      if run[k - 1].p == p && AcquiresAt(s, run, k - 1) {
        HasNow(s, run, p, k - 1);
      } else if Has(s, run, p, k) {
        HadBefore(s, run, p, k - 1);
      } else if Has(s, run, p, k - 1) && !(run[k - 1].p == p && ReleasesAt(s, run, k - 1)) {
        HasKept(s, run, p, k - 1);
      }
      assert CountOk(Before(s, run, k - 1));
    }
  }

  lemma FreeIsNobodyHas(n: nat, run: seq<Action>, k: int)
    requires IsRun(Start(SleepLock, n), run) && 0 <= k <= |run|
    ensures Before(Start(SleepLock, n), run, k).count > 0 <==>
            forall p :: 0 <= p < n ==> !Has(Start(SleepLock, n), run, p, k)
  {
    var s := Start(SleepLock, n);
    RunPrefix(s, run, k);
    StartInv(SleepLock, n);
    InvRun(s, run[..k]);
    var t := Before(s, run, k);
    assert CountOk(t);
    forall p | 0 <= p < n ensures Holding(t, p) <==> Has(s, run, p, k) {
      HoldingIsHas(n, run, p, k);
    }
    if t.count == 0 {
      assert Holding(t, t.owner);
    }
  }

  lemma FirstReleases(n: nat, run: seq<Action>, j: int, k: int)
    requires IsRun(Start(SleepLock, n), run) && 0 <= j < k < |run|
    requires AcquiresAt(Start(SleepLock, n), run, j) && AcquiresAt(Start(SleepLock, n), run, k)
    ensures exists m :: j < m < k && run[m].p == run[j].p && ReleasesAt(Start(SleepLock, n), run, m)
  {
    var s := Start(SleepLock, n);
    StartInv(SleepLock, n);
    BeforeNext(s, run, k);
    LockTurn(Before(s, run, k), run[k]);
    HoldingIsHas(n, run, run[j].p, k);
    assert !HasSince(s, run, run[j].p, j, k);
  }

  /** holdingsleep() is true of p exactly from the step in which p gets through up to the one
      in which p releases; between two that get through the first releases; and the lock is
      free exactly when nobody has it. */
  lemma SleepLockExcludes(n: nat, run: seq<Action>)
    requires IsRun(Start(SleepLock, n), run)
    ensures var s := Start(SleepLock, n);
            && (forall p, k :: 0 <= p && 0 <= k <= |run| ==> (Holding(Before(s, run, k), p) <==> Has(s, run, p, k)))
            && forall j, k :: 0 <= j < k < |run| && AcquiresAt(s, run, j) && AcquiresAt(s, run, k) ==>
                 exists m :: j < m < k && run[m].p == run[j].p && ReleasesAt(s, run, m)
    ensures var s := Start(SleepLock, n);
            forall k :: 0 <= k <= |run| ==>
              (Before(s, run, k).count > 0 <==> forall p :: 0 <= p < n ==> !Has(s, run, p, k))
  {
    var s := Start(SleepLock, n);
    StartInv(SleepLock, n);
    forall p, k | 0 <= p && 0 <= k <= |run| ensures Holding(Before(s, run, k), p) <==> Has(s, run, p, k) {
      HoldingIsHas(n, run, p, k);
    }
    forall j, k | 0 <= j < k < |run| && AcquiresAt(s, run, j) && AcquiresAt(s, run, k)
      ensures exists m :: j < m < k && run[m].p == run[j].p && ReleasesAt(s, run, m)
    {
      FirstReleases(n, run, j, k);
    }
    forall k | 0 <= k <= |run| ensures Before(s, run, k).count > 0 <==> forall p :: 0 <= p < n ==> !Has(s, run, p, k) {
      FreeIsNobodyHas(n, run, k);
    }
  }

  // ----- a free semaphore or lock can be taken -----

  lemma {:induction false} RunThen(s: State, run: seq<Action>, more: seq<Action>)
    requires IsRun(s, run) && IsRun(After(s, run), more)
    ensures IsRun(s, run + more) && After(s, run + more) == After(After(s, run), more)
    ensures Waits(s, run + more, -1) == Waits(s, run, -1) + Waits(After(s, run), more, -1)
    decreases |run|
  {
    if run == [] {
      assert run + more == more;
    } else {
      assert (run + more)[1..] == run[1..] + more;
      RunThen(Next(s, run[0]), run[1..], more);
    }
  }

  lemma FirstThen(s: State, a: Action, more: seq<Action>)
    requires Enabled(s, a) && IsRun(Next(s, a), more)
    ensures IsRun(s, [a] + more) && After(s, [a] + more) == After(Next(s, a), more)
    ensures Waits(s, [a] + more, -1) == (if Acquires(s, a) then 1 else 0) + Waits(Next(s, a), more, -1)
  {
    assert ([a] + more)[1..] == more;
  }

  /** A waiter and what it waits for; the locks of processes below k are free. */
  ghost predicate Due(s: State, p: int, k: int) {
    && Inv(s) && Slot(s, p) && InTake(s.procs[p].pc) && s.count > 0
    && forall q {:trigger s.procs[q]} :: 0 <= q < k && Slot(s, q) ==> s.procs[q].lock == NOBODY
  }

  /** Who holds its own p->lock goes to sleep and is switched away from. */
  lemma {:induction false} FreeLock(s: State, p: int, k: int, rank: nat) returns (run: seq<Action>)
    requires Due(s, p, k) && Slot(s, k) && s.procs[k].lock != NOBODY
    requires rank == if s.procs[k].pc.SleepRelease? then 2 else if s.procs[k].pc.SleepMark? then 1 else 0
    ensures IsRun(s, run) && Due(After(s, run), p, k + 1) && |After(s, run).procs| == |s.procs|
    decreases rank
  {
    assert PcOk(s, k);
    var a := if s.procs[k].pc.Asleep? then Switch(k) else Step(k);
    InvStep(s, a);
    var s' := Next(s, a);
    var rest := [];
    if s.procs[k].pc.Asleep? {
      assert Due(s', p, k + 1);
    } else {
      rest := FreeLock(s', p, k, rank - 1);
    }
    FirstThen(s, a, rest);
    run := [a] + rest;
  }

  lemma {:induction false} FreeLocks(s: State, p: int, k: int) returns (run: seq<Action>)
    requires Due(s, p, k) && 0 <= k <= |s.procs|
    ensures IsRun(s, run) && Due(After(s, run), p, |s.procs|) && |After(s, run).procs| == |s.procs|
    decreases |s.procs| - k
  {
    run := [];
    if k < |s.procs| {
      if s.procs[k].lock != NOBODY {
        var r := s.procs[k].pc;
        run := FreeLock(s, p, k, if r.SleepRelease? then 2 else if r.SleepMark? then 1 else 0);
      }
      var rest := FreeLocks(After(s, run), p, k + 1);
      RunThen(s, run, rest);
      run := run + rest;
    }
  }

  /** A process that has taken, or gives, ends its call, unless a wait gets through. */
  lemma {:induction false} FreeSpin(s: State, p: int, left: nat) returns (run: seq<Action>)
    requires Due(s, p, |s.procs|) && s.spin != NOBODY
    requires var pc := s.procs[s.spin].pc;
             left == if pc.Giving? then |s.procs| + 2 else if pc.Waking? && pc.j < |s.procs| then |s.procs| - pc.j
                 else 0
    ensures IsRun(s, run)
    ensures Waits(s, run, -1) > 0
            || (Due(After(s, run), p, |s.procs|) && |After(s, run).procs| == |s.procs| && After(s, run).spin == NOBODY)
    decreases left
  {
    var h := s.spin;
    assert PcOk(s, h) && PcOk(s, p);
    var a := Step(h);
    InvStep(s, a);
    var s' := Next(s, a);
    var rest := [];
    if !s.procs[h].pc.Test? && s'.spin != NOBODY {
      rest := FreeSpin(s', p, left - if s.procs[h].pc.Giving? then 2 else 1);
    }
    FirstThen(s, a, rest);
    run := [a] + rest;
  }

  /** With all locks free the waiter goes on to take. */
  lemma {:induction false} TakeFree(s: State, p: int, rank: nat) returns (run: seq<Action>)
    requires Due(s, p, |s.procs|) && (s.spin == NOBODY || s.spin == p)
    requires var r := s.procs[p];
             rank == (if r.pc.Test? then 0 else if r.pc.Reacquire? then 1 else 2) + if r.st == RUNNING then 0 else 1
    ensures IsRun(s, run) && Waits(s, run, -1) > 0
    decreases rank
  {
    assert PcOk(s, p) && NotMissed(s, p);
    var a := if s.procs[p].st == RUNNING then Step(p) else Dispatch(p);
    InvStep(s, a);
    var s' := Next(s, a);
    var rest := [];
    if !s.procs[p].pc.Test? {
      rest := TakeFree(s', p, rank - 1);
    }
    FirstThen(s, a, rest);
    run := [a] + rest;
  }

  /** Nothing blocks for good: whenever a process is in a wait and the count is positive,
      the run can go on so that a wait gets through. */
  lemma WaitCanFinish(kind: Kind, n: nat, run: seq<Action>, p: int) returns (more: seq<Action>)
    requires IsRun(Start(kind, n), run)
    requires var s := After(Start(kind, n), run); Slot(s, p) && InTake(s.procs[p].pc) && s.count > 0
    ensures IsRun(Start(kind, n), run + more)
    ensures Waits(Start(kind, n), run + more, -1) > Waits(Start(kind, n), run, -1)
  {
    StartInv(kind, n);
    InvRun(Start(kind, n), run);
    var s := After(Start(kind, n), run);
    more := FreeLocks(s, p, 0);
    var s1 := After(s, more);
    if s1.spin != NOBODY {
      var pc := s1.procs[s1.spin].pc;
      var settle := FreeSpin(s1, p,
                             if pc.Giving? then |s1.procs| + 2
                             else if pc.Waking? && pc.j < |s1.procs| then |s1.procs| - pc.j
                             else 0);
      RunThen(s, more, settle);
      more := more + settle;
    }
    var s2 := After(s, more);
    if Waits(s, more, -1) == 0 {
      var r := s2.procs[p];
      var take := TakeFree(s2, p, (if r.pc.Test? then 0 else if r.pc.Reacquire? then 1 else 2) + if r.st == RUNNING
                           then 0 else 1);
      RunThen(s, more, take);
      more := more + take;
    }
    RunThen(Start(kind, n), run, more);
  }

  /** Anyone who is outside can come to run and call: wait, or post, which for a sleep lock is
      for the one who has it. */
  lemma CanCall(kind: Kind, n: nat, run: seq<Action>, p: int, call: Action) returns (more: seq<Action>)
    requires IsRun(Start(kind, n), run) && (call == Take(p) || call == Give(p))
    requires var s := After(Start(kind, n), run); Slot(s, p) && s.procs[p].pc.Idle? && s.spin == NOBODY
    requires kind == SleepLock && call.Give? ==> Holding(After(Start(kind, n), run), p)
    ensures IsRun(Start(kind, n), run + more) && Calls(more, call) == 1
  {
    StartInv(kind, n);
    InvRun(Start(kind, n), run);
    var s := After(Start(kind, n), run);
    assert PcOk(s, p);
    more := [call];
    assert more[1..] == [] && Calls(more, call) == 1;
    if s.procs[p].st != RUNNING {
      assert IsRun(Next(s, Dispatch(p)), more);
      assert ([Dispatch(p)] + more)[1..] == more;
      more := [Dispatch(p)] + more;
    }
    RunThen(Start(kind, n), run, more);
  }

  /** A wait that finds the count at 0 does not spin: by its own next steps it is asleep on
      the channel, and both locks are free. */
  lemma WaitSleeps(kind: Kind, n: nat, run: seq<Action>, p: int)
    requires IsRun(Start(kind, n), run)
    requires var s := After(Start(kind, n), run); Slot(s, p) && s.procs[p].pc.Test? && s.count <= 0
    ensures var s, steps := After(Start(kind, n), run), [Step(p), Step(p), Step(p), Step(p), Switch(p)];
            && IsRun(s, steps) && Slot(After(s, steps), p) && After(s, steps).spin == NOBODY
            && After(s, steps).procs[p] == Proc(SLEEPING, Asleep, true, NOBODY)
  {
    StartInv(kind, n);
    InvRun(Start(kind, n), run);
    var s0 := After(Start(kind, n), run);
    assert PcOk(s0, p);
    var s1 := Next(s0, Step(p));
    var s2 := Next(s1, Step(p));
    var s3 := Next(s2, Step(p));
    var s4 := Next(s3, Step(p));
    assert [Switch(p)] + [] == [Switch(p)];
    FirstThen(s4, Switch(p), []);
    FirstThen(s3, Step(p), [Switch(p)]);
    FirstThen(s2, Step(p), [Step(p)] + [Switch(p)]);
    FirstThen(s1, Step(p), [Step(p)] + ([Step(p)] + [Switch(p)]));
    FirstThen(s0, Step(p), [Step(p)] + ([Step(p)] + ([Step(p)] + [Switch(p)])));
    assert [Step(p), Step(p), Step(p), Step(p), Switch(p)]
        == [Step(p)] + ([Step(p)] + ([Step(p)] + ([Step(p)] + [Switch(p)])));
  }
}
