/** The life cycle of processes in kernel/proc.c: fork, exit, wait and join, as steps of
    processes and of the scheduler in any order.

    A step is what happens between two points where another CPU can interfere.  A
    critical section that takes one process's lock, looks at that process and lets the
    lock go is one step, possible only while the lock is free; locks held for longer are
    explicit. */
module ExitWait {
  datatype PState = UNUSED | USED | SLEEPING | RUNNABLE | RUNNING | ZOMBIE

  const NOBODY := -1
  /** A sleep channel that has nothing to do with wait. */
  const ELSEWHERE := -2

  /** kwait() wants any child, kjoin(tid) the one with that pid. */
  datatype Target = AnyChild | Child(pid: int)

  /** Where a process is in the code.  `target` is what kwait() or kjoin() looks for. */
  datatype Pc =
    | Unborn
    /** A slot that `maker` is filling in. */
    | Fresh(maker: int)
    | User
    // kfork() and kclone(): holding the new slot's lock; that released; parent set
    // under wait_lock; wait_lock released
    | ForkFill(c: int) | ForkFilled(c: int) | ForkParent(c: int) | ForkReady(c: int)
    // kexit(), under wait_lock: reparent() at slot i; its wakeup(initproc) at slot j;
    // wakeup(p->parent) at slot j; then p->lock taken; ZOMBIE; wait_lock released
    | Reparent(i: int) | WakeInit(i: int, j: int) | WakeParent(j: int) | ExitLock | ExitMark | ExitZombie | Dead
    // kwait() and kjoin(), under wait_lock: looking at slot i; then sleep(): taking
    // p->lock; releasing wait_lock; marking; in sched(); wanting wait_lock again
    | Scan(target: Target, i: int, kids: bool) | SleepLock(target: Target) | SleepRelease(target: Target)
    | SleepMark(target: Target) | Asleep(target: Target) | Reacquire(target: Target)

  /** `status` is what kexit() was called with; `xstate` is what wait or join hand on. */
  datatype Proc = Proc(st: PState, pc: Pc, chan: int, parent: int, pid: int, killed: bool, lock: int, status: int,
                       xstate: int)

  /** `reaped` are the pids that wait or join has freed, each with the status handed on. */
  datatype State = State(procs: seq<Proc>, waitLock: int, nextpid: int, init: int, reaped: map<int, int>)

  datatype Action =
    | Fork(p: int, c: int) | ForkFails(p: int) | ForkRelease(p: int) | ForkSetParent(p: int) | ForkUnlock(p: int)
    | ForkGo(p: int)
    | Exit(p: int, status: int) | ExitStep(p: int)
    | Wait(p: int, target: Target) | WaitStep(p: int, copyFails: bool)
    | Switch(p: int) | Dispatch(p: int) | Preempt(p: int) | Pause(p: int) | WakeElsewhere(p: int)
    | Kill(p: int, fatal: bool)

  predicate Slot(s: State, p: int) {
    0 <= p < |s.procs|
  }

  predicate Running(s: State, p: int) {
    Slot(s, p) && s.procs[p].st == RUNNING
  }

  function Put(s: State, p: int, r: Proc): State
    requires Slot(s, p)
  {
    State(s.procs[p := r], s.waitLock, s.nextpid, s.init, s.reaped)
  }

  function At(s: State, p: int, pc: Pc): State
    requires Slot(s, p)
  {
    Put(s, p, s.procs[p].(pc := pc))
  }

  function WithWait(s: State, h: int): State {
    State(s.procs, h, s.nextpid, s.init, s.reaped)
  }

  /** Slot c as allocproc() leaves it, holding its lock; a kill(0) before may have marked it. */
  function NewProc(s: State, c: int, p: int): Proc
    requires Slot(s, c)
  {
    Proc(USED, Fresh(p), NOBODY, NOBODY, s.nextpid, s.procs[c].killed, p, 0, 0)
  }

  predicate Matches(s: State, target: Target, c: int)
    requires Slot(s, c)
  {
    target == AnyChild || target == Child(s.procs[c].pid)
  }

  /** One turn of wakeup(chan) by p, at slot j. */
  predicate CanWake(s: State, p: int, j: int) {
    Slot(s, j) && (j != p ==> s.procs[j].lock == NOBODY)
  }

  function Wake(s: State, p: int, chan: int, j: int): State
    requires Slot(s, j)
  {
    if j != p && s.procs[j].st == SLEEPING && s.procs[j].chan == chan then Put(s, j, s.procs[j].(st := RUNNABLE)) else s
  }

  /** freeproc() of a ZOMBIE, with its pid noted. */
  function Reap(s: State, c: int): State
    requires Slot(s, c)
  {
    State(s.procs[c := s.procs[c].(st := UNUSED, pc := Unborn, chan := NOBODY, parent := NOBODY, pid := 0,
                                   killed := false, status := 0, xstate := 0)],
          s.waitLock, s.nextpid, s.init, s.reaped[s.procs[c].pid := s.procs[c].xstate])
  }

  /** The exiting process marks itself. */
  function Zombied(s: State, p: int): State
    requires Slot(s, p)
  {
    Put(s, p, s.procs[p].(st := ZOMBIE, pc := ExitZombie, xstate := s.procs[p].status))
  }

  // ----- the steps -----

  predicate ExitEnabled(s: State, p: int)
    requires Slot(s, p)
  {
    match s.procs[p].pc
    case Reparent(i) => 0 <= i
    case WakeInit(i, j) => 0 <= j && (j < |s.procs| ==> CanWake(s, p, j))
    case WakeParent(j) => 0 <= j && (j < |s.procs| ==> CanWake(s, p, j))
    case ExitLock => s.procs[p].lock == NOBODY
    case ExitMark => true
    case ExitZombie => true
    case _ => false
  }

  function ExitNext(s: State, p: int): State
    requires Slot(s, p) && ExitEnabled(s, p)
  {
    match s.procs[p].pc
    case Reparent(i) =>
      if i >= |s.procs| then At(s, p, WakeParent(0))
      else if s.procs[i].parent == p then At(Put(s, i, s.procs[i].(parent := s.init)), p, WakeInit(i, 0))
      else At(s, p, Reparent(i + 1))
    case WakeInit(i, j) =>
      if j >= |s.procs| then At(s, p, Reparent(i + 1)) else At(Wake(s, p, s.init, j), p, WakeInit(i, j + 1))
    case WakeParent(j) =>
      if j >= |s.procs| then At(s, p, ExitLock) else At(Wake(s, p, s.procs[p].parent, j), p, WakeParent(j + 1))
    case ExitLock => Put(s, p, s.procs[p].(lock := p, pc := ExitMark))
    case ExitMark => Zombied(s, p)
    case _ => WithWait(At(s, p, Dead), NOBODY)
  }

  predicate WaitEnabled(s: State, p: int)
    requires Slot(s, p)
  {
    match s.procs[p].pc
    case Scan(t, i, kids) =>
      0 <= i && (i < |s.procs| && s.procs[i].parent == p && Matches(s, t, i) ==> s.procs[i].lock == NOBODY)
    case SleepLock(t) => s.procs[p].lock == NOBODY
    case SleepRelease(t) => true
    case SleepMark(t) => true
    case Asleep(t) => s.procs[p].lock == NOBODY
    case Reacquire(t) => s.waitLock == NOBODY
    case _ => false
  }

  function WaitNext(s: State, p: int, copyFails: bool): State
    requires Slot(s, p) && WaitEnabled(s, p)
  {
    match s.procs[p].pc
    case Scan(t, i, kids) =>
      if i >= |s.procs| then
        if !kids || s.procs[p].killed then WithWait(At(s, p, User), NOBODY) else At(s, p, SleepLock(t))
      else if s.procs[i].parent == p && Matches(s, t, i) then
        if s.procs[i].st == ZOMBIE then
          WithWait(At(if copyFails then s else Reap(s, i), p, User), NOBODY)
        else At(s, p, Scan(t, i + 1, true))
      else At(s, p, Scan(t, i + 1, kids))
    case SleepLock(t) => Put(s, p, s.procs[p].(lock := p, pc := SleepRelease(t)))
    case SleepRelease(t) => WithWait(At(s, p, SleepMark(t)), NOBODY)
    case SleepMark(t) => Put(s, p, s.procs[p].(chan := p, st := SLEEPING, pc := Asleep(t)))
    case Asleep(t) => Put(s, p, s.procs[p].(chan := NOBODY, pc := Reacquire(t)))
    case Reacquire(t) => WithWait(At(s, p, Scan(t, 0, false)), p)
    case _ => s
  }

  /** Spinlocks keep interrupts off: only a process that holds none is preempted. */
  predicate Preemptible(s: State, p: int)
    requires Slot(s, p)
  {
    s.waitLock != p && (s.procs[p].pc.User? || s.procs[p].pc.ForkFilled? || s.procs[p].pc.ForkReady?
                        || s.procs[p].pc.Reacquire?)
  }

  predicate Enabled(s: State, a: Action) {
    match a
    case Fork(p, c) => Running(s, p) && s.procs[p].pc == User && Slot(s, c) && s.procs[c].lock == NOBODY
        && s.procs[c].st == UNUSED
    case ForkFails(p) => Running(s, p) && s.procs[p].pc.ForkFill? && Slot(s, s.procs[p].pc.c)
    case ForkRelease(p) => Running(s, p) && s.procs[p].pc.ForkFill? && Slot(s, s.procs[p].pc.c)
    case ForkSetParent(p) => Running(s, p) && s.procs[p].pc.ForkFilled? && Slot(s, s.procs[p].pc.c)
        && s.waitLock == NOBODY
    case ForkUnlock(p) => Running(s, p) && s.procs[p].pc.ForkParent?
    case ForkGo(p) => Running(s, p) && s.procs[p].pc.ForkReady? && Slot(s, s.procs[p].pc.c)
        && s.procs[s.procs[p].pc.c].lock == NOBODY
    case Exit(p, status) => Running(s, p) && s.procs[p].pc == User && p != s.init && s.waitLock == NOBODY
    case ExitStep(p) => Slot(s, p) && (Running(s, p) || s.procs[p].pc.ExitZombie?) && ExitEnabled(s, p)
    case Wait(p, target) => Running(s, p) && s.procs[p].pc == User && s.waitLock == NOBODY
    case WaitStep(p, copyFails) => Running(s, p) && WaitEnabled(s, p)
    case Switch(p) => Slot(s, p) && (s.procs[p].pc.Asleep? || s.procs[p].pc.Dead?) && s.procs[p].lock == p
    case Dispatch(p) => Slot(s, p) && s.procs[p].st == RUNNABLE && s.procs[p].lock == NOBODY
    case Preempt(p) => Running(s, p) && Preemptible(s, p)
    case Pause(p) => Running(s, p) && s.procs[p].pc == User && s.procs[p].lock == NOBODY
    case WakeElsewhere(p) => Slot(s, p) && s.procs[p].st == SLEEPING && s.procs[p].chan == ELSEWHERE
        && s.procs[p].lock == NOBODY
    case Kill(p, fatal) => Slot(s, p) && s.procs[p].lock == NOBODY
  }

  function Next(s: State, a: Action): State
    requires Enabled(s, a)
  {
    match a
    case Fork(p, c) =>
      State(s.procs[c := NewProc(s, c, p)][p := s.procs[p].(pc := ForkFill(c))],
            s.waitLock, s.nextpid + 1, s.init, s.reaped)
    case ForkFails(p) =>
      At(Put(s, s.procs[p].pc.c, Proc(UNUSED, Unborn, NOBODY, NOBODY, 0, false, NOBODY, 0, 0)), p, User)
    case ForkRelease(p) =>
      At(Put(s, s.procs[p].pc.c, s.procs[s.procs[p].pc.c].(lock := NOBODY)), p, ForkFilled(s.procs[p].pc.c))
    case ForkSetParent(p) =>
      WithWait(At(Put(s, s.procs[p].pc.c, s.procs[s.procs[p].pc.c].(parent := p)), p, ForkParent(s.procs[p].pc.c)), p)
    case ForkUnlock(p) => WithWait(At(s, p, ForkReady(s.procs[p].pc.c)), NOBODY)
    case ForkGo(p) => At(Put(s, s.procs[p].pc.c, s.procs[s.procs[p].pc.c].(st := RUNNABLE, pc := User)), p, User)
    case Exit(p, status) => WithWait(Put(s, p, s.procs[p].(pc := Reparent(0), status := status)), p)
    case ExitStep(p) => ExitNext(s, p)
    case Wait(p, target) => WithWait(At(s, p, Scan(target, 0, false)), p)
    case WaitStep(p, copyFails) => WaitNext(s, p, copyFails)
    case Switch(p) => Put(s, p, s.procs[p].(lock := NOBODY))
    case Dispatch(p) => Put(s, p, s.procs[p].(st := RUNNING))
    case Preempt(p) => Put(s, p, s.procs[p].(st := RUNNABLE))
    case Pause(p) => Put(s, p, s.procs[p].(st := SLEEPING, chan := ELSEWHERE))
    case WakeElsewhere(p) => Put(s, p, s.procs[p].(st := RUNNABLE))
    case Kill(p, fatal) =>
      Put(s, p, s.procs[p].(killed := s.procs[p].killed || fatal, st := if s.procs[p].st == SLEEPING then RUNNABLE
                            else s.procs[p].st))
  }

  // ----- the invariant -----

  predicate HoldsWaitLock(pc: Pc) {
    pc.ForkParent? || pc.Reparent? || pc.WakeInit? || pc.WakeParent? || pc.ExitLock? || pc.ExitMark? || pc.ExitZombie?
    || pc.Scan? || pc.SleepLock? || pc.SleepRelease?
  }

  predicate Exiting(pc: Pc) {
    pc.Reparent? || pc.WakeInit? || pc.WakeParent? || pc.ExitLock? || pc.ExitMark? || pc.ExitZombie? || pc.Dead?
  }

  predicate Live(s: State, p: int) {
    Slot(s, p) && (s.procs[p].st == SLEEPING || s.procs[p].st == RUNNABLE || s.procs[p].st == RUNNING)
  }

  predicate Forking(pc: Pc, c: int) {
    (pc.ForkFill? || pc.ForkFilled? || pc.ForkParent? || pc.ForkReady?) && pc.c == c
  }

  /** State and place in the code of process p agree. */
  ghost predicate PcOk(s: State, p: int)
    requires Slot(s, p)
  {
    var r := s.procs[p];
    && (r.st == UNUSED <==> r.pc == Unborn) && (r.st == USED <==> r.pc.Fresh?)
    && (r.st == ZOMBIE <==> r.pc == ExitZombie || r.pc == Dead)
    && (r.st == UNUSED ==> r.parent == NOBODY)
    && (r.st == SLEEPING ==> (r.pc.Asleep? && r.chan == p) || (r.pc == User && r.chan == ELSEWHERE))
    && (HoldsWaitLock(r.pc) <==> s.waitLock == p)
    && (Exiting(r.pc) ==> p != s.init)
    && (r.pc.SleepRelease? || r.pc.SleepMark? || r.pc.ExitMark? || r.pc.ExitZombie? ==> r.lock == p)
    && (r.lock == p ==>
          r.pc.SleepRelease? || r.pc.SleepMark? || r.pc.Asleep? || r.pc.ExitMark? || r.pc.ExitZombie? || r.pc.Dead?)
    && (HoldsWaitLock(r.pc) && !r.pc.ExitZombie? ==> r.st == RUNNING)
  }

  /** The slot that process p is filling in is p's alone, and has p as its parent from
      the moment that is set. */
  ghost predicate ForkOk(s: State, p: int)
    requires Slot(s, p)
  {
    var r := s.procs[p];
    && (r.pc.ForkFill? || r.pc.ForkFilled? ==> Slot(s, r.pc.c) && s.procs[r.pc.c].pc == Fresh(p))
    && (r.pc.ForkParent? || r.pc.ForkReady? ==>
          Slot(s, r.pc.c) && s.procs[r.pc.c].pc == Fresh(p) && s.procs[r.pc.c].parent == p)
  }

  /** A process at pc may still be the parent of slot c. */
  predicate NotPassed(pc: Pc, c: int) {
    match pc
    case Reparent(i) => c >= i
    case WakeInit(i, j) => c > i
    case _ => !Exiting(pc)
  }

  /** The parent of c is live, and has not yet passed c by in an exit of its own. */
  ghost predicate ParentOk(s: State, c: int)
    requires Slot(s, c)
  {
    var q := s.procs[c].parent;
    && (Live(s, c) || s.procs[c].st == ZOMBIE ==> c == s.init || q != NOBODY)
    && (q != NOBODY ==> Live(s, q) && q != c && c != s.init && NotPassed(s.procs[q].pc, c))
  }

  /** Process p is asleep in wait, or can no longer be stopped from falling asleep. */
  predicate Committed(s: State, p: int)
    requires Slot(s, p)
  {
    s.procs[p].pc.SleepMark? || (s.procs[p].pc.Asleep? && s.procs[p].st == SLEEPING)
  }

  /** Slot c is a ZOMBIE that process p, in wait or join, is looking for. */
  predicate Awaited(s: State, p: int, c: int)
    requires Slot(s, p) && Slot(s, c)
  {
    && s.procs[c].st == ZOMBIE && s.procs[c].parent == p
    && (s.procs[p].pc.SleepMark? || s.procs[p].pc.Asleep? || s.procs[p].pc.SleepLock? || s.procs[p].pc.SleepRelease?
        || s.procs[p].pc.Scan?)
    && Matches(s, s.procs[p].pc.target, c)
  }

  /** reparent() has given c to init and its wakeup() has yet to reach init. */
  predicate WakingInit(s: State, p: int, c: int) {
    Slot(s, s.waitLock) && s.procs[s.waitLock].pc.WakeInit? && s.procs[s.waitLock].pc.i == c
        && s.procs[s.waitLock].pc.j <= p && p == s.init
  }

  /** Nobody sleeps through the exit of a child: p is neither asleep with a ZOMBIE to
      reap, unless about to be woken, nor has it passed one by. */
  ghost predicate NotMissed(s: State, p: int, c: int)
    requires Slot(s, p) && Slot(s, c)
  {
    Awaited(s, p, c) ==>
      && (Committed(s, p) ==> WakingInit(s, p, c))
      && !s.procs[p].pc.SleepLock? && !s.procs[p].pc.SleepRelease?
      && (s.procs[p].pc.Scan? ==> c >= s.procs[p].pc.i)
  }

  /** An exiting process has woken its parent before it becomes a ZOMBIE. */
  ghost predicate ParentWoken(s: State, p: int)
    requires Slot(s, p)
  {
    var r := s.procs[p];
    (r.pc.WakeParent? && r.pc.j > r.parent) || r.pc.ExitLock? || r.pc.ExitMark? ==>
        Slot(s, r.parent) && !Committed(s, r.parent)
  }

  /** Pids are fresh, never used twice, and not among the reaped. */
  ghost predicate PidOk(s: State, p: int)
    requires Slot(s, p)
  {
    s.procs[p].st != UNUSED ==> 0 < s.procs[p].pid < s.nextpid && s.procs[p].pid !in s.reaped
  }

  ghost predicate PidsApart(s: State, p: int, q: int)
    requires Slot(s, p) && Slot(s, q)
  {
    p != q && s.procs[p].st != UNUSED && s.procs[q].st != UNUSED ==> s.procs[p].pid != s.procs[q].pid
  }

  ghost predicate Inv(s: State) {
    && s.nextpid > 0 && Live(s, s.init) && s.procs[s.init].parent == NOBODY
    && (s.waitLock == NOBODY || Slot(s, s.waitLock))
    && (forall p {:trigger PcOk(s, p)} :: Slot(s, p) ==> PcOk(s, p))
    && (forall p {:trigger ForkOk(s, p)} :: Slot(s, p) ==> ForkOk(s, p))
    && (forall p {:trigger ParentOk(s, p)} :: Slot(s, p) ==> ParentOk(s, p))
    && (forall p {:trigger ParentWoken(s, p)} :: Slot(s, p) ==> ParentWoken(s, p))
    && (forall p, c {:trigger NotMissed(s, p, c)} :: Slot(s, p) && Slot(s, c) ==> NotMissed(s, p, c))
    && (forall p {:trigger PidOk(s, p)} :: Slot(s, p) ==> PidOk(s, p))
    && (forall p, q {:trigger PidsApart(s, p, q)} :: Slot(s, p) && Slot(s, q) ==> PidsApart(s, p, q))
    && (forall x :: x in s.reaped ==> 0 < x < s.nextpid)
  }

  // ----- every step keeps it -----

  /** Only the record of slot p and the holder of wait_lock change. */
  function Own(s: State, p: int, r: Proc, h: int): State
    requires Slot(s, p)
  {
    State(s.procs[p := r], h, s.nextpid, s.init, s.reaped)
  }

  /** What a step of p on its own record must see to. */
  ghost predicate OwnOk(s: State, p: int, r: Proc, h: int)
    requires Slot(s, p)
  {
    var o, s' := s.procs[p], Own(s, p, r, h);
    && r.parent == o.parent && r.pid == o.pid
    && (h == s.waitLock || (s.waitLock == NOBODY && h == p) || (s.waitLock == p && h == NOBODY))
    && PcOk(s', p) && ForkOk(s', p) && ParentWoken(s', p)
    && (o.st == r.st || (Live(s', p) && (Live(s, p) || o.st == USED)))
    && (Live(s', p) ==> p == s.init || r.parent != NOBODY)
    && (o.pc.Fresh? && r.pc != o.pc ==> !Slot(s, o.pc.maker) || !Forking(s.procs[o.pc.maker].pc, p))
    && (Committed(s', p) && !Committed(s, p) ==> s.waitLock == p)
    && (Exiting(o.pc) || Exiting(r.pc) ==> forall c {:trigger NotPassed(r.pc, c)} ::
        Slot(s, c) && s.procs[c].parent == p && NotPassed(o.pc, c) ==> NotPassed(r.pc, c))
    && (o.pc.WakeInit? ==> forall q, c {:trigger WakingInit(s', q, c)} ::
        Slot(s, q) && Slot(s, c) && q != p && Committed(s, q) && WakingInit(s, q, c) ==> WakingInit(s', q, c))
    && (forall c {:trigger NotMissed(s', p, c)} :: Slot(s, c) ==> NotMissed(s', p, c))
  }

  lemma OwnPc(s: State, p: int, r: Proc, h: int, q: int)
    requires Inv(s) && Slot(s, p) && OwnOk(s, p, r, h) && Slot(s, q)
    ensures PcOk(Own(s, p, r, h), q) && ForkOk(Own(s, p, r, h), q) && PidOk(Own(s, p, r, h), q)
  {
    assert PcOk(s, q) && ForkOk(s, q) && PidOk(s, q) && PcOk(s, p) && PidOk(s, p);
  }

  lemma OwnParent(s: State, p: int, r: Proc, h: int, q: int)
    requires Inv(s) && Slot(s, p) && OwnOk(s, p, r, h) && Slot(s, q)
    ensures ParentOk(Own(s, p, r, h), q)
  {
    assert ParentOk(s, q) && ParentOk(s, p) && PcOk(s, p);
    if s.procs[q].parent == p {
      assert NotPassed(s.procs[p].pc, q);
      assert Exiting(s.procs[p].pc) || Exiting(r.pc) ==> NotPassed(r.pc, q);
    }
  }

  lemma OwnWoken(s: State, p: int, r: Proc, h: int, q: int)
    requires Inv(s) && Slot(s, p) && OwnOk(s, p, r, h) && Slot(s, q)
    ensures ParentWoken(Own(s, p, r, h), q)
  {
    assert ParentWoken(s, q) && PcOk(s, q) && ParentWoken(Own(s, p, r, h), p);
  }

  lemma OthersNotMissed(s: State, p: int, r: Proc, h: int, q: int, c: int)
    requires Inv(s) && Slot(s, p) && OwnOk(s, p, r, h) && Slot(s, q) && Slot(s, c) && NotMissed(s, q, c)
    ensures NotMissed(Own(s, p, r, h), q, c)
  {
    var s' := Own(s, p, r, h);
    if q != p && Awaited(s', q, c) {
      assert s.procs[c].st == ZOMBIE;
      assert Awaited(s, q, c);
      if Committed(s, q) {
        assert WakingInit(s, q, c);
        assert PcOk(s, s.waitLock);
      }
    } else {
      assert NotMissed(s', p, c);
    }
  }

  lemma OwnStep(s: State, p: int, r: Proc, h: int)
    requires Inv(s) && Slot(s, p) && OwnOk(s, p, r, h)
    ensures Inv(Own(s, p, r, h))
  {
    var s' := Own(s, p, r, h);
    forall q | Slot(s, q) ensures PcOk(s', q) && ForkOk(s', q) && PidOk(s', q) {
      OwnPc(s, p, r, h, q);
    }
    forall q | Slot(s, q) ensures ParentOk(s', q) {
      OwnParent(s, p, r, h, q);
    }
    forall q | Slot(s, q) ensures ParentWoken(s', q) {
      OwnWoken(s, p, r, h, q);
    }
    forall q, c | Slot(s, q) && Slot(s, c) ensures NotMissed(s', q, c) && PidsApart(s', q, c) {
      OthersNotMissed(s, p, r, h, q, c);
      assert PidsApart(s, q, c) && PcOk(s, p);
    }
    OwnPc(s, p, r, h, s.init);
    assert PcOk(s, s.init) && PcOk(s, p) && Live(s', s.init);
  }

  /** Slot c becomes UNUSED: freeproc(), after wait, or when fork fails. */
  function Cleared(s: State, c: int, lock: int, reaped: map<int, int>): State
    requires Slot(s, c)
  {
    State(s.procs[c := Proc(UNUSED, Unborn, NOBODY, NOBODY, 0, false, lock, 0, 0)], s.waitLock, s.nextpid, s.init,
          reaped)
  }

  lemma ClearStepPair(s: State, c: int, lock: int, reaped: map<int, int>, p: int, d: int)
    requires Inv(s) && Slot(s, c) && lock != c
    requires s.procs[c].st == USED || (s.procs[c].st == ZOMBIE && s.waitLock != c)
    requires forall p :: Slot(s, p) ==> !Forking(s.procs[p].pc, c)
    requires reaped == s.reaped || reaped == s.reaped[s.procs[c].pid := s.procs[c].xstate]
    requires Slot(s, p) && Slot(s, d)
    ensures NotMissed(Cleared(s, c, lock, reaped), p, d) && PidsApart(Cleared(s, c, lock, reaped), p, d)
  {
    assert PcOk(s, c);
    assert NotMissed(s, p, d) && PidsApart(s, p, d) && PcOk(s, p);
    if Slot(s, s.waitLock) {
      assert PcOk(s, s.waitLock);
    }
  }

  lemma ClearStepOne(s: State, c: int, lock: int, reaped: map<int, int>, p: int)
    requires Inv(s) && Slot(s, c) && lock != c
    requires s.procs[c].st == USED || (s.procs[c].st == ZOMBIE && s.waitLock != c)
    requires forall p :: Slot(s, p) ==> !Forking(s.procs[p].pc, c)
    requires reaped == s.reaped || reaped == s.reaped[s.procs[c].pid := s.procs[c].xstate]
    requires Slot(s, p)
    ensures PcOk(Cleared(s, c, lock, reaped), p) && PidOk(Cleared(s, c, lock, reaped), p)
    ensures ForkOk(Cleared(s, c, lock, reaped), p) && ParentOk(Cleared(s, c, lock, reaped), p)
    ensures ParentWoken(Cleared(s, c, lock, reaped), p)
  {
    assert PcOk(s, c) && PidOk(s, c);
    assert PcOk(s, p) && PidOk(s, p) && PidsApart(s, p, c) && ForkOk(s, p) && ParentOk(s, p) && ParentWoken(s, p);
  }

  lemma ClearStep(s: State, c: int, lock: int, reaped: map<int, int>)
    requires Inv(s) && Slot(s, c) && lock != c
    requires s.procs[c].st == USED || (s.procs[c].st == ZOMBIE && s.waitLock != c)
    requires forall p :: Slot(s, p) ==> !Forking(s.procs[p].pc, c)
    requires reaped == s.reaped || reaped == s.reaped[s.procs[c].pid := s.procs[c].xstate]
    ensures Inv(Cleared(s, c, lock, reaped))
  {
    var s' := Cleared(s, c, lock, reaped);
    forall p | Slot(s, p)
      ensures PcOk(s', p) && PidOk(s', p) && ForkOk(s', p) && ParentOk(s', p) && ParentWoken(s', p)
    {
      ClearStepOne(s, c, lock, reaped, p);
    }
    forall p, d | Slot(s, p) && Slot(s, d) ensures NotMissed(s', p, d) && PidsApart(s', p, d) {
      ClearStepPair(s, c, lock, reaped, p, d);
    }
    assert PcOk(s, s.init) && PidOk(s, c);
  }

  /** allocproc(): an UNUSED slot becomes USED, with a pid never given before. */
  function Born(s: State, c: int, p: int): State
    requires Slot(s, c)
  {
    State(s.procs[c := NewProc(s, c, p)], s.waitLock, s.nextpid + 1, s.init, s.reaped)
  }

  lemma BirthStepPair(s: State, c: int, p: int, q: int, d: int)
    requires Inv(s) && Slot(s, c) && Slot(s, p) && c != p && s.procs[c].st == UNUSED
    requires Slot(s, q) && Slot(s, d)
    ensures NotMissed(Born(s, c, p), q, d) && PidsApart(Born(s, c, p), q, d)
  {
    assert PcOk(s, c);
    assert NotMissed(s, q, d) && PidsApart(s, q, d) && PidOk(s, q) && PidOk(s, d);
    if Slot(s, s.waitLock) {
      assert PcOk(s, s.waitLock);
    }
  }

  lemma BirthStep(s: State, c: int, p: int)
    requires Inv(s) && Slot(s, c) && Slot(s, p) && c != p && s.procs[c].st == UNUSED
    ensures Inv(Born(s, c, p))
  {
    var s' := Born(s, c, p);
    assert PcOk(s, c);
    forall q | Slot(s, q) ensures PcOk(s', q) && PidOk(s', q) && ForkOk(s', q) {
      assert PcOk(s, q) && PidOk(s, q) && ForkOk(s, q);
    }
    forall q | Slot(s, q) ensures ParentOk(s', q) {
      assert ParentOk(s, q);
    }
    forall q | Slot(s, q) ensures ParentWoken(s', q) {
      assert ParentWoken(s, q);
    }
    forall q, d | Slot(s, q) && Slot(s, d) ensures NotMissed(s', q, d) && PidsApart(s', q, d) {
      BirthStepPair(s, c, p, q, d);
    }
    assert PcOk(s, s.init);
  }

  function WithParent(s: State, c: int, q: int): State
    requires Slot(s, c)
  {
    Put(s, c, s.procs[c].(parent := q))
  }

  lemma ParentStepPair(s: State, c: int, q: int, p: int, d: int)
    requires Inv(s) && Slot(s, c) && Slot(s, q) && s.procs[c].st == USED && c != q
    requires Live(s, q) && !Exiting(s.procs[q].pc) && s.procs[c].pc == Fresh(q)
    requires !s.procs[q].pc.ForkParent? && !s.procs[q].pc.ForkReady?
    requires Slot(s, p) && Slot(s, d)
    ensures NotMissed(WithParent(s, c, q), p, d) && PidsApart(WithParent(s, c, q), p, d)
  {
    assert PcOk(s, c);
    assert NotMissed(s, p, d) && PidsApart(s, p, d);
    if Slot(s, s.waitLock) {
      assert PcOk(s, s.waitLock);
    }
  }

  /** kfork() names itself the parent of the slot it is filling in. */
  lemma ParentStep(s: State, c: int, q: int)
    requires Inv(s) && Slot(s, c) && Slot(s, q) && s.procs[c].st == USED && c != q
    requires Live(s, q) && !Exiting(s.procs[q].pc) && s.procs[c].pc == Fresh(q)
    requires !s.procs[q].pc.ForkParent? && !s.procs[q].pc.ForkReady?
    ensures Inv(WithParent(s, c, q))
  {
    var s' := WithParent(s, c, q);
    assert PcOk(s, c) && PcOk(s, s.init);
    forall p | Slot(s, p) ensures PcOk(s', p) && PidOk(s', p) && ForkOk(s', p) {
      assert PcOk(s, p) && PidOk(s, p) && ForkOk(s, p);
    }
    forall p | Slot(s, p) ensures ParentOk(s', p) {
      assert ParentOk(s, p);
    }
    forall p | Slot(s, p) ensures ParentWoken(s', p) {
      assert ParentWoken(s, p);
    }
    forall p, d | Slot(s, p) && Slot(s, d) ensures NotMissed(s', p, d) && PidsApart(s', p, d) {
      ParentStepPair(s, c, q, p, d);
    }
  }

  /** reparent() hands slot i to init, and will wake init. */
  function Reparented(s: State, p: int, i: int): State
    requires Slot(s, p) && Slot(s, i)
  {
    At(Put(s, i, s.procs[i].(parent := s.init)), p, WakeInit(i, 0))
  }

  lemma ReparentStepOne(s: State, p: int, i: int, q: int)
    requires Inv(s) && Slot(s, p) && Slot(s, i) && s.procs[p].pc == Reparent(i) && s.procs[i].parent == p
    requires Slot(s, q)
    ensures PcOk(Reparented(s, p, i), q) && PidOk(Reparented(s, p, i), q)
    ensures ForkOk(Reparented(s, p, i), q)
    ensures ParentOk(Reparented(s, p, i), q) && ParentWoken(Reparented(s, p, i), q)
  {
    assert PcOk(s, p) && PcOk(s, s.init) && ParentOk(s, i) && ParentOk(s, p);
    assert PcOk(s, q) && PidOk(s, q) && ForkOk(s, q) && ParentOk(s, q) && ParentWoken(s, q);
    assert s.procs[q].parent == p ==> NotPassed(s.procs[p].pc, q);
  }

  lemma ReparentStepPair(s: State, p: int, i: int, q: int, d: int)
    requires Inv(s) && Slot(s, p) && Slot(s, i) && s.procs[p].pc == Reparent(i) && s.procs[i].parent == p
    requires Slot(s, q) && Slot(s, d)
    ensures NotMissed(Reparented(s, p, i), q, d) && PidsApart(Reparented(s, p, i), q, d)
  {
    assert PcOk(s, p) && PcOk(s, i) && PcOk(s, s.init) && ParentOk(s, i) && ParentOk(s, p) && s.waitLock == p;
    assert NotMissed(s, q, d) && PidsApart(s, q, d) && PcOk(s, q);
  }

  /** init becomes the parent, and if it sleeps while the child is a ZOMBIE, the wakeup
      that reaches it is still to come, under wait_lock. */
  lemma ReparentStep(s: State, p: int, i: int)
    requires Inv(s) && Slot(s, p) && Slot(s, i) && s.procs[p].pc == Reparent(i) && s.procs[i].parent == p
    ensures Inv(Reparented(s, p, i))
    ensures Reparented(s, p, i).procs[i].parent == s.init && Reparented(s, p, i).waitLock == p
    ensures WakingInit(Reparented(s, p, i), s.init, i)
  {
    var s' := Reparented(s, p, i);
    forall q | Slot(s, q)
      ensures PcOk(s', q) && PidOk(s', q) && ForkOk(s', q) && ParentOk(s', q) && ParentWoken(s', q)
    {
      ReparentStepOne(s, p, i, q);
    }
    forall q, d | Slot(s, q) && Slot(s, d) ensures NotMissed(s', q, d) && PidsApart(s', q, d) {
      ReparentStepPair(s, p, i, q, d);
    }
    assert PcOk(s, p) && PcOk(s, s.init) && ParentOk(s, i) && ParentOk(s, s.init);
  }

  lemma ZombieStepPair(s: State, p: int, q: int, d: int)
    requires Inv(s) && Slot(s, p) && s.procs[p].pc == ExitMark
    requires Slot(s, q) && Slot(s, d)
    ensures NotMissed(Zombied(s, p), q, d)
    ensures PidsApart(Zombied(s, p), q, d)
  {
    assert PcOk(s, p) && ParentOk(s, p) && ParentWoken(s, p) && s.waitLock == p;
    assert NotMissed(s, q, d) && PidsApart(s, q, d) && PcOk(s, q);
  }

  /** The exiting process becomes a ZOMBIE: it has no children left, and its parent is
      live and awake. */
  lemma ZombieStep(s: State, p: int)
    requires Inv(s) && Slot(s, p) && s.procs[p].pc == ExitMark
    ensures Inv(Zombied(s, p))
    ensures forall c :: Slot(s, c) ==> Zombied(s, p).procs[c].parent != p
    ensures Live(Zombied(s, p), s.procs[p].parent) && !Committed(Zombied(s, p), s.procs[p].parent)
  {
    var s' := Zombied(s, p);
    assert PcOk(s, p) && ParentOk(s, p) && ParentWoken(s, p) && s.waitLock == p && PcOk(s, s.init);
    forall q | Slot(s, q) ensures PcOk(s', q) && PidOk(s', q) && ForkOk(s', q) {
      assert PcOk(s, q) && PidOk(s, q) && ForkOk(s, q);
    }
    forall q | Slot(s, q) ensures ParentOk(s', q) {
      assert ParentOk(s, q);
    }
    forall q | Slot(s, q) ensures ParentWoken(s', q) {
      assert ParentWoken(s, q) && PcOk(s, q);
    }
    forall q, d | Slot(s, q) && Slot(s, d) ensures NotMissed(s', q, d) && PidsApart(s', q, d) {
      ZombieStepPair(s, p, q, d);
    }
  }

  // ----- the actions -----

  /** A process whose place in the code has nothing to do with exit or wait moves on. */
  lemma QuietStep(s: State, p: int, r: Proc, h: int)
    requires Inv(s) && Slot(s, p)
    requires r.parent == s.procs[p].parent && r.pid == s.procs[p].pid
    requires h == s.waitLock || (s.waitLock == NOBODY && h == p) || (s.waitLock == p && h == NOBODY)
    requires PcOk(Own(s, p, r, h), p) && ForkOk(Own(s, p, r, h), p)
    requires Live(s, p) && Live(Own(s, p, r, h), p)
    requires s.procs[p].pc == r.pc || (!Exiting(s.procs[p].pc) && !s.procs[p].pc.Fresh? && !s.procs[p].pc.Unborn?)
    requires !Exiting(r.pc) || r.pc == Reparent(0) || r.pc == s.procs[p].pc
    requires forall c {:trigger NotMissed(Own(s, p, r, h), p, c)} :: Slot(s, c) ==>
               NotMissed(Own(s, p, r, h), p, c)
    requires Committed(Own(s, p, r, h), p) && !Committed(s, p) ==> s.waitLock == p
    ensures Inv(Own(s, p, r, h))
  {
    var s' := Own(s, p, r, h);
    assert ParentOk(s, p) && ParentWoken(s, p) && PcOk(s, p);
    if Exiting(r.pc) || Exiting(s.procs[p].pc) {
      forall c | Slot(s, c) && s.procs[c].parent == p && NotPassed(s.procs[p].pc, c)
        ensures NotPassed(r.pc, c)
      {
      }
    }
    OwnStep(s, p, r, h);
  }

  /** When p is not in wait it cannot miss anything. */
  lemma NotInWait(s: State, p: int)
    requires Slot(s, p) && !s.procs[p].pc.SleepMark? && !s.procs[p].pc.Asleep?
    requires !s.procs[p].pc.SleepLock? && !s.procs[p].pc.SleepRelease? && !s.procs[p].pc.Scan?
    ensures forall c {:trigger NotMissed(s, p, c)} :: Slot(s, c) ==> NotMissed(s, p, c)
  {
  }

  /** p moves on inside kfork(). */
  lemma ForkAdvance(s: State, p: int, pc: Pc, h: int)
    requires Inv(s) && Running(s, p)
    requires (s.procs[p].pc == User || s.procs[p].pc.ForkFill? || s.procs[p].pc.ForkFilled? || s.procs[p].pc.ForkParent?
              || s.procs[p].pc.ForkReady?)
    requires pc == User || pc.ForkFill? || pc.ForkFilled? || pc.ForkParent? || pc.ForkReady?
    requires h == s.waitLock || (s.waitLock == NOBODY && h == p) || (s.waitLock == p && h == NOBODY)
    requires h == p <==> pc.ForkParent?
    requires ForkOk(Own(s, p, s.procs[p].(pc := pc), h), p)
    ensures Inv(Own(s, p, s.procs[p].(pc := pc), h))
  {
    var r := s.procs[p].(pc := pc);
    assert PcOk(s, p);
    NotInWait(Own(s, p, r, h), p);
    QuietStep(s, p, r, h);
  }

  lemma ForkBegin(s: State, p: int, c: int)
    requires Inv(s) && Enabled(s, Fork(p, c))
    ensures Inv(Next(s, Fork(p, c)))
  {
    assert PcOk(s, p) && PcOk(s, c);
    BirthStep(s, c, p);
    ForkAdvance(Born(s, c, p), p, ForkFill(c), s.waitLock);
    assert Next(s, Fork(p, c)).procs == Own(Born(s, c, p), p, s.procs[p].(pc := ForkFill(c)), s.waitLock).procs;
  }

  lemma ForkFailsStep(s: State, p: int)
    requires Inv(s) && Enabled(s, ForkFails(p))
    ensures Inv(Next(s, ForkFails(p)))
  {
    var c := s.procs[p].pc.c;
    assert PcOk(s, p) && ForkOk(s, p) && PcOk(s, c);
    ForkAdvance(s, p, User, s.waitLock);
    var t := Own(s, p, s.procs[p].(pc := User), s.waitLock);
    forall q | Slot(t, q) ensures !Forking(t.procs[q].pc, c) {
      assert ForkOk(s, q);
    }
    ClearStep(t, c, NOBODY, s.reaped);
    assert Next(s, ForkFails(p)).procs == Cleared(t, c, NOBODY, s.reaped).procs;
  }

  lemma ForkReleaseStep(s: State, p: int)
    requires Inv(s) && Enabled(s, ForkRelease(p))
    ensures Inv(Next(s, ForkRelease(p)))
  {
    var c := s.procs[p].pc.c;
    assert PcOk(s, p) && ForkOk(s, p) && PcOk(s, c) && ParentOk(s, p);
    var r := s.procs[c].(lock := NOBODY);
    var t := Own(s, c, r, s.waitLock);
    NotInWait(t, c);
    OwnStep(s, c, r, s.waitLock);
    ForkAdvance(t, p, ForkFilled(c), s.waitLock);
    assert Next(s, ForkRelease(p)).procs == Own(t, p, s.procs[p].(pc := ForkFilled(c)), s.waitLock).procs;
  }

  /** The child that kfork() filled in becomes a process. */
  lemma ChildGoes(s: State, c: int)
    requires Inv(s) && Slot(s, c) && s.procs[c].pc.Fresh? && s.procs[c].lock == NOBODY && s.procs[c].parent != NOBODY
    requires Slot(s, s.procs[c].pc.maker) ==> !Forking(s.procs[s.procs[c].pc.maker].pc, c)
    ensures Inv(Own(s, c, s.procs[c].(st := RUNNABLE, pc := User), s.waitLock))
  {
    var r := s.procs[c].(st := RUNNABLE, pc := User);
    assert PcOk(s, c) && ParentWoken(s, c) && ParentOk(s, c);
    NotInWait(Own(s, c, r, s.waitLock), c);
    OwnStep(s, c, r, s.waitLock);
  }

  lemma ForkGoStep(s: State, p: int)
    requires Inv(s) && Enabled(s, ForkGo(p))
    ensures Inv(Next(s, ForkGo(p)))
  {
    var c := s.procs[p].pc.c;
    assert PcOk(s, p) && ForkOk(s, p) && PcOk(s, c);
    ForkAdvance(s, p, User, s.waitLock);
    var t := Own(s, p, s.procs[p].(pc := User), s.waitLock);
    ChildGoes(t, c);
    assert Next(s, ForkGo(p)).procs == Own(t, c, s.procs[c].(st := RUNNABLE, pc := User), s.waitLock).procs;
  }

  lemma ForkSteps(s: State, a: Action)
    requires Inv(s) && Enabled(s, a)
    requires a.Fork? || a.ForkFails? || a.ForkRelease? || a.ForkSetParent? || a.ForkUnlock? || a.ForkGo?
    ensures Inv(Next(s, a))
  {
    var p := a.p;
    assert PcOk(s, p) && ForkOk(s, p) && ParentOk(s, p);
    match a
    case Fork(_, c) =>
      ForkBegin(s, p, c);
    case ForkFails(_) =>
      ForkFailsStep(s, p);
    case ForkRelease(_) =>
      ForkReleaseStep(s, p);
    case ForkSetParent(_) =>
      var c := s.procs[p].pc.c;
      assert PcOk(s, c);
      ParentStep(s, c, p);
      ForkAdvance(WithParent(s, c, p), p, ForkParent(c), p);
      assert Next(s, a).procs == Own(WithParent(s, c, p), p, s.procs[p].(pc := ForkParent(c)), p).procs;
    case ForkUnlock(_) =>
      ForkAdvance(s, p, ForkReady(s.procs[p].pc.c), NOBODY);
    case ForkGo(_) =>
      ForkGoStep(s, p);
  }

  /** A process changes its state but not its place in the code, and does not fall asleep
      in wait. */
  lemma SamePlace(s: State, p: int, r: Proc)
    requires Inv(s) && Slot(s, p) && r.pc == s.procs[p].pc && r.parent == s.procs[p].parent && r.pid == s.procs[p].pid
    requires r.st == s.procs[p].st || (Live(s, p) && Live(Own(s, p, r, s.waitLock), p))
    requires PcOk(Own(s, p, r, s.waitLock), p) && (Committed(Own(s, p, r, s.waitLock), p) ==> Committed(s, p))
    ensures Inv(Own(s, p, r, s.waitLock))
  {
    assert ForkOk(s, p) && ParentOk(s, p) && ParentWoken(s, p);
    forall c | Slot(s, c) ensures NotMissed(Own(s, p, r, s.waitLock), p, c) {
      assert NotMissed(s, p, c);
    }
    OwnStep(s, p, r, s.waitLock);
  }

  lemma QuietSteps(s: State, a: Action)
    requires Inv(s) && Enabled(s, a)
    requires a.Switch? || a.Dispatch? || a.Preempt? || a.Pause? || a.WakeElsewhere?
    ensures Inv(Next(s, a))
  {
    var r := Next(s, a).procs[a.p];
    assert PcOk(s, a.p);
    SamePlace(s, a.p, r);
    assert Next(s, a) == Own(s, a.p, r, s.waitLock);
  }

  lemma KillStep(s: State, p: int, fatal: bool)
    requires Inv(s) && Enabled(s, Kill(p, fatal))
    ensures Inv(Next(s, Kill(p, fatal)))
  {
    var r := Next(s, Kill(p, fatal)).procs[p];
    assert PcOk(s, p);
    SamePlace(s, p, r);
    assert Next(s, Kill(p, fatal)) == Own(s, p, r, s.waitLock);
  }

  /** One process woken by wakeup(). */
  lemma WakeStep(s: State, p: int, chan: int, j: int)
    requires Inv(s) && Slot(s, p) && CanWake(s, p, j)
    ensures Inv(Wake(s, p, chan, j))
    ensures j != p && j == chan ==> !Committed(Wake(s, p, chan, j), j)
  {
    assert PcOk(s, j);
    if j != p && s.procs[j].st == SLEEPING && s.procs[j].chan == chan {
      KillStep(s, j, false);
      assert Next(s, Kill(j, false)) == Wake(s, p, chan, j);
    }
  }

  // ----- exit -----

  /** p moves on inside kexit(), its record otherwise unchanged. */
  lemma ExitAdvance(s: State, p: int, r: Proc, h: int)
    requires Inv(s) && Slot(s, p) && Exiting(s.procs[p].pc) && Exiting(r.pc) && s.waitLock == p
    requires r == s.procs[p].(pc := r.pc, lock := r.lock)
    requires PcOk(Own(s, p, r, h), p) && ParentWoken(Own(s, p, r, h), p) && (h == p || h == NOBODY)
    requires forall c {:trigger NotPassed(r.pc, c)} ::
               Slot(s, c) && s.procs[c].parent == p && NotPassed(s.procs[p].pc, c) ==> NotPassed(r.pc, c)
    requires s.procs[p].pc.WakeInit? && s.procs[p].pc.j < |s.procs| ==>
               r.pc == WakeInit(s.procs[p].pc.i, s.procs[p].pc.j + 1)
                   && (s.procs[p].pc.j == s.init ==> !Committed(s, s.init))
    ensures Inv(Own(s, p, r, h))
  {
    assert PcOk(s, p) && ParentOk(s, p) && PcOk(s, s.init);
    NotInWait(Own(s, p, r, h), p);
    OwnStep(s, p, r, h);
  }

  lemma ReparentTurn(s: State, p: int, i: int)
    requires Inv(s) && Running(s, p) && s.procs[p].pc == Reparent(i) && 0 <= i
    ensures Inv(ExitNext(s, p))
  {
    assert PcOk(s, p) && ParentOk(s, p);
    if i >= |s.procs| {
      ExitAdvance(s, p, s.procs[p].(pc := WakeParent(0)), p);
    } else if s.procs[i].parent == p {
      ReparentStep(s, p, i);
    } else {
      ExitAdvance(s, p, s.procs[p].(pc := Reparent(i + 1)), p);
    }
  }

  /** The turn at slot j is over. */
  lemma WokeInitAt(s: State, p: int, i: int, j: int)
    requires Inv(s) && Running(s, p) && s.procs[p].pc == WakeInit(i, j) && 0 <= j < |s.procs|
    requires j == s.init ==> !Committed(s, s.init)
    ensures Inv(At(s, p, WakeInit(i, j + 1)))
  {
    assert PcOk(s, p);
    ExitAdvance(s, p, s.procs[p].(pc := WakeInit(i, j + 1)), p);
  }

  lemma WakeInitTurn(s: State, p: int, i: int, j: int)
    requires Inv(s) && Running(s, p) && s.procs[p].pc == WakeInit(i, j) && 0 <= j
    requires (j < |s.procs| ==> CanWake(s, p, j))
    ensures Inv(ExitNext(s, p))
  {
    assert PcOk(s, p);
    if j >= |s.procs| {
      ExitAdvance(s, p, s.procs[p].(pc := Reparent(i + 1)), p);
    } else {
      WakeStep(s, p, s.init, j);
      WokeInitAt(Wake(s, p, s.init, j), p, i, j);
    }
  }

  lemma WokeParentAt(s: State, p: int, j: int)
    requires Inv(s) && Running(s, p) && s.procs[p].pc == WakeParent(j) && 0 <= j < |s.procs|
    requires j == s.procs[p].parent ==> !Committed(s, j)
    ensures Inv(At(s, p, WakeParent(j + 1)))
  {
    assert PcOk(s, p) && ParentOk(s, p) && ParentWoken(s, p);
    ExitAdvance(s, p, s.procs[p].(pc := WakeParent(j + 1)), p);
  }

  lemma WakeParentTurn(s: State, p: int, j: int)
    requires Inv(s) && Running(s, p) && s.procs[p].pc == WakeParent(j) && 0 <= j
    requires (j < |s.procs| ==> CanWake(s, p, j))
    ensures Inv(ExitNext(s, p))
  {
    assert PcOk(s, p) && ParentOk(s, p);
    if j >= |s.procs| {
      assert ParentWoken(s, p);
      ExitAdvance(s, p, s.procs[p].(pc := ExitLock), p);
    } else {
      WakeStep(s, p, s.procs[p].parent, j);
      WokeParentAt(Wake(s, p, s.procs[p].parent, j), p, j);
    }
  }

  lemma ExitEnds(s: State, p: int)
    requires Inv(s) && Slot(s, p) && ExitEnabled(s, p)
    requires (s.procs[p].pc.ExitLock? || s.procs[p].pc.ExitMark? || s.procs[p].pc.ExitZombie?)
    ensures Inv(ExitNext(s, p))
  {
    assert PcOk(s, p) && ParentOk(s, p) && ParentWoken(s, p);
    if s.procs[p].pc.ExitLock? {
      ExitAdvance(s, p, s.procs[p].(lock := p, pc := ExitMark), p);
    } else if s.procs[p].pc.ExitMark? {
      ZombieStep(s, p);
    } else {
      ExitAdvance(s, p, s.procs[p].(pc := Dead), NOBODY);
    }
  }

  lemma ExitSteps(s: State, p: int)
    requires Inv(s) && Enabled(s, ExitStep(p))
    ensures Inv(Next(s, ExitStep(p)))
  {
    match s.procs[p].pc
    case Reparent(i) => ReparentTurn(s, p, i);
    case WakeInit(i, j) => WakeInitTurn(s, p, i, j);
    case WakeParent(j) => WakeParentTurn(s, p, j);
    case _ => ExitEnds(s, p);
  }

  // ----- wait -----

  /** p moves on inside kwait() or kjoin(). */
  lemma WaitAdvance(s: State, p: int, r: Proc, h: int)
    requires Inv(s) && Running(s, p) && !Exiting(s.procs[p].pc) && !Exiting(r.pc)
    requires !s.procs[p].pc.Fresh? && !s.procs[p].pc.Unborn?
    requires r.parent == s.procs[p].parent && r.pid == s.procs[p].pid
    requires (r.st == RUNNING || r.st == SLEEPING)
    requires !Forking(r.pc, 0) && !r.pc.ForkFill? && !r.pc.ForkFilled? && !r.pc.ForkParent?
    requires !r.pc.ForkReady?
    requires h == s.waitLock || (s.waitLock == NOBODY && h == p) || (s.waitLock == p && h == NOBODY)
    requires PcOk(Own(s, p, r, h), p)
    requires forall c {:trigger NotMissed(Own(s, p, r, h), p, c)} :: Slot(s, c) ==>
               NotMissed(Own(s, p, r, h), p, c)
    requires Committed(Own(s, p, r, h), p) && !Committed(s, p) ==> s.waitLock == p
    ensures Inv(Own(s, p, r, h))
  {
    QuietStep(s, p, r, h);
  }

  /** A scan passes slot i, which is no ZOMBIE that p is looking for. */
  lemma ScanOn(s: State, p: int, pc: Pc)
    requires Inv(s) && Running(s, p) && s.procs[p].pc.Scan?
    requires (pc.Scan? && pc.target == s.procs[p].pc.target && pc.i == s.procs[p].pc.i + 1
              && (Slot(s, s.procs[p].pc.i) ==> !Awaited(s, p, s.procs[p].pc.i)))
          || (pc == SleepLock(s.procs[p].pc.target) && s.procs[p].pc.i >= |s.procs|)
    ensures Inv(At(s, p, pc))
  {
    var r := s.procs[p].(pc := pc);
    assert PcOk(s, p);
    forall c | Slot(s, c) ensures NotMissed(Own(s, p, r, p), p, c) {
      assert NotMissed(s, p, c) && PcOk(s, p);
    }
    WaitAdvance(s, p, r, p);
    assert At(s, p, pc) == Own(s, p, r, p);
  }

  lemma LeaveWait(s: State, p: int)
    requires Inv(s) && Running(s, p) && s.procs[p].pc.Scan?
    ensures Inv(WithWait(At(s, p, User), NOBODY))
  {
    assert PcOk(s, p);
    var r := s.procs[p].(pc := User);
    NotInWait(Own(s, p, r, NOBODY), p);
    WaitAdvance(s, p, r, NOBODY);
    assert WithWait(At(s, p, User), NOBODY) == Own(s, p, r, NOBODY);
  }

  /** A ZOMBIE is freed by its parent, under wait_lock. */
  lemma ReapStep(s: State, p: int, c: int)
    requires Inv(s) && Running(s, p) && s.procs[p].pc.Scan? && Slot(s, c) && s.procs[c].st == ZOMBIE
    requires s.procs[c].lock == NOBODY
    ensures Inv(Reap(s, c)) && Running(Reap(s, c), p) && Reap(s, c).procs[p] == s.procs[p]
    ensures s.procs[c].pid !in s.reaped
  {
    assert PcOk(s, p) && PcOk(s, c) && PidOk(s, c);
    forall q | Slot(s, q) ensures !Forking(s.procs[q].pc, c) {
      assert ForkOk(s, q);
    }
    ClearStep(s, c, NOBODY, s.reaped[s.procs[c].pid := s.procs[c].xstate]);
    assert Reap(s, c) == Cleared(s, c, NOBODY, s.reaped[s.procs[c].pid := s.procs[c].xstate]);
  }

  /** The loop ends: nothing to wait for, or else to sleep. */
  lemma ScanEnds(s: State, p: int, copyFails: bool)
    requires Inv(s) && Running(s, p) && s.procs[p].pc.Scan? && WaitEnabled(s, p)
    requires s.procs[p].pc.i >= |s.procs|
    ensures Inv(WaitNext(s, p, copyFails))
  {
    if !s.procs[p].pc.kids || s.procs[p].killed {
      LeaveWait(s, p);
    } else {
      ScanOn(s, p, SleepLock(s.procs[p].pc.target));
    }
  }

  /** A child that p is looking for. */
  lemma ScanFinds(s: State, p: int, copyFails: bool)
    requires Inv(s) && Running(s, p) && s.procs[p].pc.Scan? && WaitEnabled(s, p)
    requires Slot(s, s.procs[p].pc.i) && s.procs[s.procs[p].pc.i].parent == p
    requires Matches(s, s.procs[p].pc.target, s.procs[p].pc.i)
    ensures Inv(WaitNext(s, p, copyFails))
  {
    var t, i := s.procs[p].pc.target, s.procs[p].pc.i;
    if s.procs[i].st != ZOMBIE {
      ScanOn(s, p, Scan(t, i + 1, true));
    } else if copyFails {
      LeaveWait(s, p);
    } else {
      ReapStep(s, p, i);
      LeaveWait(Reap(s, i), p);
    }
  }

  lemma ScanTurn(s: State, p: int, copyFails: bool)
    requires Inv(s) && Running(s, p) && s.procs[p].pc.Scan? && WaitEnabled(s, p)
    ensures Inv(WaitNext(s, p, copyFails))
  {
    var t, i, kids := s.procs[p].pc.target, s.procs[p].pc.i, s.procs[p].pc.kids;
    if i >= |s.procs| {
      ScanEnds(s, p, copyFails);
    } else if s.procs[i].parent == p && Matches(s, t, i) {
      ScanFinds(s, p, copyFails);
    } else {
      ScanOn(s, p, Scan(t, i + 1, kids));
    }
  }

  /** sleep() on the way down, under wait_lock and then p->lock. */
  lemma SleepTurn(s: State, p: int)
    requires Inv(s) && Running(s, p) && WaitEnabled(s, p)
    requires (s.procs[p].pc.SleepLock? || s.procs[p].pc.SleepRelease? || s.procs[p].pc.SleepMark?)
    ensures Inv(WaitNext(s, p, false))
  {
    assert PcOk(s, p);
    var s' := WaitNext(s, p, false);
    var r, h := s'.procs[p], s'.waitLock;
    assert s' == Own(s, p, r, h);
    forall c | Slot(s, c) ensures NotMissed(s', p, c) {
      assert NotMissed(s, p, c) && PcOk(s, c);
      if s.procs[p].pc.SleepMark? && Awaited(s', p, c) {
        assert Awaited(s, p, c);
      }
    }
    WaitAdvance(s, p, r, h);
  }

  /** sleep() on the way up, and the loop begins again. */
  lemma WokenTurn(s: State, p: int)
    requires Inv(s) && Running(s, p) && WaitEnabled(s, p)
    requires (s.procs[p].pc.Asleep? || s.procs[p].pc.Reacquire?)
    ensures Inv(WaitNext(s, p, false))
  {
    assert PcOk(s, p);
    var s' := WaitNext(s, p, false);
    var r, h := s'.procs[p], s'.waitLock;
    assert s' == Own(s, p, r, h);
    forall c | Slot(s, c) ensures NotMissed(s', p, c) {
    }
    WaitAdvance(s, p, r, h);
  }

  lemma WaitSteps(s: State, p: int, copyFails: bool)
    requires Inv(s) && Enabled(s, WaitStep(p, copyFails))
    ensures Inv(Next(s, WaitStep(p, copyFails)))
  {
    if s.procs[p].pc.Scan? {
      ScanTurn(s, p, copyFails);
    } else if s.procs[p].pc.Asleep? || s.procs[p].pc.Reacquire? {
      WokenTurn(s, p);
    } else {
      SleepTurn(s, p);
    }
  }

  /** Entering kexit(), kwait() or kjoin(). */
  lemma EnterStep(s: State, p: int, pc: Pc, status: int)
    requires Inv(s) && Running(s, p) && s.procs[p].pc == User && s.waitLock == NOBODY
    requires (pc == Reparent(0) && p != s.init) || (pc.Scan? && pc.i == 0)
    ensures Inv(Own(s, p, s.procs[p].(pc := pc, status := status), p))
  {
    assert PcOk(s, p);
    var r := s.procs[p].(pc := pc, status := status);
    forall c | Slot(s, c) ensures NotMissed(Own(s, p, r, p), p, c) {
    }
    QuietStep(s, p, r, p);
  }

  lemma EnterSteps(s: State, a: Action)
    requires Inv(s) && Enabled(s, a) && (a.Exit? || a.Wait?)
    ensures Inv(Next(s, a))
  {
    if a.Exit? {
      EnterStep(s, a.p, Reparent(0), a.status);
    } else {
      EnterStep(s, a.p, Scan(a.target, 0, false), s.procs[a.p].status);
    }
    assert Next(s, a) == Own(s, a.p, Next(s, a).procs[a.p], a.p);
  }

  /** Pids once reaped, and what was handed on, stay. */
  ghost predicate StillReaped(s: State, s': State) {
    forall x {:trigger x in s.reaped} {:trigger x in s'.reaped} :: x in s.reaped ==>
      x in s'.reaped && s'.reaped[x] == s.reaped[x]
  }

  lemma ReapedGrows(s: State, a: Action)
    requires Inv(s) && Enabled(s, a)
    ensures StillReaped(s, Next(s, a))
  {
    if a.ExitStep? {
      assert s.procs[a.p].pc.WakeInit? || s.procs[a.p].pc.WakeParent? || Next(s, a).reaped == s.reaped;
    }
    if a.WaitStep? && s.procs[a.p].pc.Scan? && Slot(s, s.procs[a.p].pc.i) {
      assert PidOk(s, s.procs[a.p].pc.i);
      assert PcOk(s, s.procs[a.p].pc.i);
    }
  }

  /** Every step of every process, and of the scheduler, keeps the invariant. */
  lemma InvStep(s: State, a: Action)
    requires Inv(s) && Enabled(s, a)
    ensures Inv(Next(s, a)) && StillReaped(s, Next(s, a))
  {
    ReapedGrows(s, a);
    if a.Exit? || a.Wait? {
      EnterSteps(s, a);
    } else if a.ExitStep? {
      ExitSteps(s, a.p);
    } else if a.WaitStep? {
      WaitSteps(s, a.p, a.copyFails);
    } else if a.Kill? {
      KillStep(s, a.p, a.fatal);
    } else if a.Switch? || a.Dispatch? || a.Preempt? || a.Pause? || a.WakeElsewhere? {
      QuietSteps(s, a);
    } else {
      ForkSteps(s, a);
    }
  }

  // ----- whole runs -----

  /** The table userinit() leaves: init alone. */
  function Boot(n: nat): State
    requires n > 0
  {
    State(seq(n, k => if k == 0 then Proc(RUNNABLE, User, NOBODY, NOBODY, 1, false, NOBODY, 0, 0)
              else Proc(UNUSED, Unborn, NOBODY, NOBODY, 0, false, NOBODY, 0, 0)),
          NOBODY, 2, 0, map[])
  }

  ghost predicate IsRun(s: State, run: seq<Action>)
    decreases |run|
  {
    run == [] || (Enabled(s, run[0]) && IsRun(Next(s, run[0]), run[1..]))
  }

  ghost function After(s: State, run: seq<Action>): State
    requires IsRun(s, run)
    decreases |run|
  {
    if run == [] then s else After(Next(s, run[0]), run[1..])
  }

  lemma BootInv(n: nat)
    requires n > 0
    ensures Inv(Boot(n))
  {
    var s := Boot(n);
    forall p | Slot(s, p)
      ensures PcOk(s, p) && ForkOk(s, p) && ParentOk(s, p) && ParentWoken(s, p) && PidOk(s, p)
    {
    }
    forall p, q | Slot(s, p) && Slot(s, q) ensures NotMissed(s, p, q) && PidsApart(s, p, q) {
    }
  }

  lemma {:induction false} InvRun(s: State, run: seq<Action>)
    requires Inv(s) && IsRun(s, run)
    ensures Inv(After(s, run)) && StillReaped(s, After(s, run))
    decreases |run|
  {
    if run != [] {
      InvStep(s, run[0]);
      InvRun(Next(s, run[0]), run[1..]);
    }
  }

  predicate WakesInit(s: State, a: Action, p: int) {
    a == ExitStep(p) && Slot(s, p) && s.procs[p].pc.WakeInit? && s.procs[p].pc.j == s.init
  }

  /** Some step of the run is the turn of p's wakeup(initproc) at init's own slot. */
  ghost predicate WokeInit(s: State, run: seq<Action>, p: int)
    requires IsRun(s, run)
    decreases |run|
  {
    run != [] && (WakesInit(s, run[0], p) || WokeInit(Next(s, run[0]), run[1..], p))
  }

  lemma ForkSpares(s: State, a: Action, p: int)
    requires Inv(s) && Enabled(s, a) && Slot(s, p) && s.procs[p].pc.WakeInit?
    requires a.Fork? || a.ForkFails? || a.ForkRelease? || a.ForkSetParent? || a.ForkUnlock? || a.ForkGo?
    ensures Next(s, a).procs[p].pc == s.procs[p].pc && Next(s, a).init == s.init
  {
    assert PcOk(s, p) && ForkOk(s, a.p);
  }

  lemma ExitSpares(s: State, q: int, p: int)
    requires Slot(s, q) && ExitEnabled(s, q) && Slot(s, p) && p != q
    ensures ExitNext(s, q).procs[p].pc == s.procs[p].pc && ExitNext(s, q).init == s.init
  {
  }

  lemma ReapSpares(s: State, q: int, copyFails: bool, p: int)
    requires Running(s, q) && WaitEnabled(s, q) && Slot(s, p) && p != q && s.procs[p].st != ZOMBIE
    ensures WaitNext(s, q, copyFails).procs[p] == s.procs[p] && WaitNext(s, q, copyFails).init == s.init
  {
  }

  /** Only a process's own steps move it while it wakes init. */
  lemma WakingStays(s: State, a: Action, p: int)
    requires Inv(s) && Enabled(s, a) && Slot(s, p) && s.procs[p].pc.WakeInit? && a != ExitStep(p)
    ensures Slot(Next(s, a), p) && Next(s, a).procs[p].pc == s.procs[p].pc && Next(s, a).init == s.init
  {
    assert PcOk(s, p);
    if a.WaitStep? {
      ReapSpares(s, a.p, a.copyFails, p);
    } else if a.ExitStep? {
      ExitSpares(s, a.p, p);
    } else if a.Fork? || a.ForkFails? || a.ForkRelease? || a.ForkSetParent? || a.ForkUnlock? || a.ForkGo? {
      ForkSpares(s, a, p);
    }
  }

  /** A child handed to init has init woken before wait_lock is released: in any run from
      there, the lock is let go only after the turn at init's slot, which leaves init
      awake. */
  lemma {:induction false} InitWokenFirst(s: State, run: seq<Action>, p: int)
    requires Inv(s) && Slot(s, p) && s.procs[p].pc.WakeInit? && 0 <= s.procs[p].pc.j <= s.init
    requires IsRun(s, run) && After(s, run).waitLock != p
    ensures WokeInit(s, run, p)
    decreases |run|
  {
    assert PcOk(s, p);
    if run != [] && !WakesInit(s, run[0], p) {
      var s1 := Next(s, run[0]);
      InvStep(s, run[0]);
      if run[0] != ExitStep(p) {
        WakingStays(s, run[0], p);
      } else {
        assert s1.procs[p].pc == WakeInit(s.procs[p].pc.i, s.procs[p].pc.j + 1) && s1.init == s.init;
      }
      InitWokenFirst(s1, run[1..], p);
    }
  }

  lemma InitAwake(s: State, p: int)
    requires Inv(s) && Enabled(s, ExitStep(p)) && WakesInit(s, ExitStep(p), p)
    ensures !Committed(Next(s, ExitStep(p)), s.init)
  {
    assert PcOk(s, p) && PcOk(s, s.init);
    WakeStep(s, p, s.init, s.init);
  }

  /** Process p sleeps in kwait() (target AnyChild) or kjoin(tid) (target Child(tid)), or holds
      its own lock and is about to. */
  predicate AsleepIn(s: State, p: int, target: Target) {
    Slot(s, p) && Committed(s, p) && s.procs[p].pc.target == target
  }

  /** This step is the one in which a wait or join frees the process with this pid. */
  predicate Reaps(s: State, a: Action, pid: int)
    requires Enabled(s, a)
  {
    && a.WaitStep? && !a.copyFails && s.procs[a.p].pc.Scan? && Slot(s, s.procs[a.p].pc.i)
    && s.procs[s.procs[a.p].pc.i].parent == a.p && Matches(s, s.procs[a.p].pc.target, s.procs[a.p].pc.i)
    && s.procs[s.procs[a.p].pc.i].st == ZOMBIE && s.procs[s.procs[a.p].pc.i].pid == pid
  }

  /** Safety of exit and wait in every state of every run from boot: parents are live,
      ZOMBIEs have a parent to reap them, and while wait_lock is free nobody sleeps in
      wait or join for a child that is a ZOMBIE already. */
  lemma ExitWaitSafe(n: nat, run: seq<Action>, p: int, c: int, target: Target)
    requires n > 0 && IsRun(Boot(n), run)
    ensures var s := After(Boot(n), run);
            (Slot(s, c) && s.procs[c].parent != NOBODY ==> Live(s, s.procs[c].parent))
            && (Slot(s, c) && s.procs[c].st == ZOMBIE ==> Live(s, s.procs[c].parent))
            && (s.waitLock == NOBODY && AsleepIn(s, p, target) && Slot(s, c)
                && s.procs[c].parent == p && Matches(s, target, c) ==>
                  s.procs[c].st != ZOMBIE)
  {
    var s := After(Boot(n), run);
    BootInv(n);
    InvRun(Boot(n), run);
    if Slot(s, c) {
      assert ParentOk(s, c) && PcOk(s, c);
      if Slot(s, p) {
        assert NotMissed(s, p, c);
      }
    }
  }

  /** No exited process is reaped twice: in any run, at most one of two steps reaps a
      given pid. */
  lemma ReapedOnce(n: nat, run: seq<Action>, a: Action, later: seq<Action>, b: Action, pid: int)
    requires n > 0 && IsRun(Boot(n), run) && Enabled(After(Boot(n), run), a)
    requires IsRun(Next(After(Boot(n), run), a), later)
    requires Enabled(After(Next(After(Boot(n), run), a), later), b)
    ensures Reaps(After(Boot(n), run), a, pid) ==>
              !Reaps(After(Next(After(Boot(n), run), a), later), b, pid)
  {
    var s := After(Boot(n), run);
    BootInv(n);
    InvRun(Boot(n), run);
    InvStep(s, a);
    var s1 := Next(s, a);
    InvRun(s1, later);
    var s2 := After(s1, later);
    if Reaps(s, a, pid) {
      assert pid in s1.reaped && pid in s2.reaped;
      if b.WaitStep? && s2.procs[b.p].pc.Scan? && Slot(s2, s2.procs[b.p].pc.i) {
        assert PidOk(s2, s2.procs[b.p].pc.i);
      }
    }
  }
}
